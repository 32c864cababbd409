/**
 * Extraction of loss records from a parsed page. A record comes from a
 * link whose own text is a parenthesised caption such as `(1, destroyed)`;
 * the equipment type is read from the trailing texts of the enclosing list
 * item, and one record is produced for every number in the caption.
 */
module Parser {
  import opened Wrappers
  import opened Strings
  import opened Patterns
  import opened Html

  /** The statuses a loss can have, in their declaration order. */
  datatype Status = Destroyed | Captured | Damaged | Abandoned | Sunk | Scuttled

  /** The enum member's `.value`. */
  function StatusValue(s: Status): string
  {
    match s
    case Destroyed => "destroyed"
    case Captured => "captured"
    case Damaged => "damaged"
    case Abandoned => "abandoned"
    case Sunk => "sunk"
    case Scuttled => "scuttled"
  }

  /** Iteration order of the enum. */
  const Statuses: seq<Status> := [Destroyed, Captured, Damaged, Abandoned, Sunk, Scuttled]

  /** One loss record. Its fields are those of the frozen dataclass, whose
      equality and hash are over all four fields; a datatype's equality is
      exactly that. The dataclass field `type` is called `kind` here. */
  datatype Loss = Loss(kind: string, status: string, number: int, link: string)

  /** The two ways extraction fails for a well-formed candidate. */
  datatype ParseError =
    | NoStatus     // `next()` found no status: StopIteration, re-raised by the generator
    | MissingHref  // `link.attrib['href']` on a link without one: KeyError

  // ---------------------------------------------------------------------
  // The pieces of one candidate

  /** The candidate filter: a non-empty text starting with `(` and ending
      with `)`. */
  predicate IsCandidateText(text: string)
  {
    |text| > 0 && text[0] == '(' && text[|text| - 1] == ')'
  }

  /** `status.value in text`: a case-sensitive substring test. */
  predicate Mentions(text: string, s: Status)
  {
    Contains(text, StatusValue(s))
  }

  /** The first status of `order` that the text mentions. */
  function FirstMentioned(text: string, order: seq<Status>): Option<Status>
  {
    if order == [] then None
    else if Mentions(text, order[0]) then Some(order[0])
    else FirstMentioned(text, order[1..])
  }

  /** The scan picks the earliest mentioned status of the order, and finds
      none exactly when no status of the order is mentioned. */
  lemma {:induction false} FirstMentionedSpec(text: string, order: seq<Status>)
    ensures var r := FirstMentioned(text, order);
      && (r.None? <==> forall j :: 0 <= j < |order| ==> !Mentions(text, order[j]))
      && (r.Some? ==> exists j :: 0 <= j < |order| && order[j] == r.value
                        && Mentions(text, r.value)
                        && forall i :: 0 <= i < j ==> !Mentions(text, order[i]))
  {
    if order != [] && !Mentions(text, order[0]) {
      FirstMentionedSpec(text, order[1..]);
      var r := FirstMentioned(text, order);
      if r.Some? {
        var j :| 0 <= j < |order[1..]| && order[1..][j] == r.value
                 && forall i :: 0 <= i < j ==> !Mentions(text, order[1..][i]);
        assert order[j + 1] == r.value;
        assert forall i :: 0 <= i < j + 1 ==> !Mentions(text, order[i]) by {
          forall i | 1 <= i < j + 1 ensures !Mentions(text, order[i]) {
            assert order[i] == order[1..][i - 1];
          }
        }
      }
    }
  }

  /** `next(filter(lambda x: x[1].value in text, enumerate(Status)))[1]`:
      the first status, in declaration order, whose value is a
      (case-sensitive) substring of the caption. */
  function PickStatus(text: string): Option<Status>
  {
    FirstMentioned(text, Statuses)
  }

  /** `group.strip(':')`: colons only; whitespace is kept. */
  function StripColons(s: string): string
  {
    Trim(s, Colon)
  }

  /** `'http' + href.strip().split('http')[-1]`. */
  function NormalizeLink(href: string): string
  {
    "http" + LastPiece(StripSpace(href), "http")
  }

  /** `_extract_tails` on an element: its own tail, then the tails collected
      from each child in turn. */
  function Tails(n: Node): string
    decreases n, 1
  {
    n.tail + ChildTails(n.children)
  }

  function ChildTails(cs: seq<Node>): string
    decreases cs, 0
  {
    if cs == [] then "" else ChildTails(cs[..|cs| - 1]) + Tails(cs[|cs| - 1])
  }

  /** `_extract_tails(root)`, where `root` may be None. */
  function ExtractTails(root: Option<Node>): string
  {
    match root
    case None => ""
    case Some(n) => Tails(n)
  }

  /** The first element of `chain` with the given tag. */
  function FirstTagged(chain: seq<Node>, tag: string): (r: Option<Node>)
    ensures r.None? <==> forall k :: 0 <= k < |chain| ==> chain[k].tag != tag
    ensures r.Some? ==> exists k :: 0 <= k < |chain| && chain[k] == r.value && r.value.tag == tag
                         && forall j :: 0 <= j < k ==> chain[j].tag != tag
  {
    if chain == [] then None
    else if chain[0].tag == tag then Some(chain[0])
    else
      var r := FirstTagged(chain[1..], tag);
      assert forall k :: 1 <= k < |chain| ==> chain[k] == chain[1..][k - 1];
      r
  }

  /** What the `getparent()` climb from a link stops at: the link itself or
      its nearest ancestor tagged `li`, or None past the root. */
  function NearestListItem(site: Site): Option<Node>
  {
    FirstTagged([site.node] + site.ancestors, "li")
  }

  /** The caption match for a candidate: `re.match` on the stripped tails of
      its list item, giving the captured group. */
  function Caption(site: Site): Option<string>
  {
    MatchCaption(StripSpace(ExtractTails(NearestListItem(site))))
  }

  /** The records of one matching candidate, one per digit run. */
  function RecordsOf(kind: string, status: Status, runs: seq<string>, href: string): (r: seq<Loss>)
    requires forall k :: 0 <= k < |runs| ==> AllDigits(runs[k])
    ensures |r| == |runs|
  {
    seq(|runs|, k requires 0 <= k < |runs| =>
      Loss(kind, StatusValue(status), DecimalValue(runs[k]), NormalizeLink(href)))
  }

  /** What one link found by `findall` contributes. */
  function SiteLosses(site: Site): Result<seq<Loss>, ParseError>
  {
    if !IsCandidateText(site.node.text) then Ok([])
    else match Caption(site)
      case None => Ok([])
      case Some(group) => EmitSpec(site.node, StripColons(group))
  }

  /** The records of a matched candidate with type `kind`: nothing without
      numbers, otherwise a status and an `href` are needed. */
  function EmitSpec(link: Node, kind: string): Result<seq<Loss>, ParseError>
  {
    var runs := DigitRuns(link.text);
    if runs == [] then Ok([])
    else match PickStatus(link.text)
      case None => Err(NoStatus)
      case Some(st) =>
        if "href" !in link.attrs then Err(MissingHref)
        else Ok(RecordsOf(kind, st, runs, link.attrs["href"]))
  }

  /** Sequencing of two extraction steps: the first failure wins. */
  function Then(a: Result<seq<Loss>, ParseError>, b: Result<seq<Loss>, ParseError>): Result<seq<Loss>, ParseError>
  {
    if a.Err? then a else if b.Err? then b else Ok(a.value + b.value)
  }

  /** The records of a sequence of links, in order; the first failure aborts. */
  function ParseSites(sites: seq<Site>): Result<seq<Loss>, ParseError>
  {
    if sites == [] then Ok([])
    else Then(ParseSites(sites[..|sites| - 1]), SiteLosses(sites[|sites| - 1]))
  }

  /** `list(parse_losses(body))` for the document whose tree is `doc`. */
  function ParseDocument(doc: Node): Result<seq<Loss>, ParseError>
  {
    ParseSites(FindAll(doc, "a"))
  }

  // ---------------------------------------------------------------------
  // parse_losses, step by step

  /** The generator `parse_losses`, run to completion: the loop over the
      links in document order, each contributing the records of
      `LinkLosses`, until the first failure. */
  method ParseLosses(doc: Node) returns (r: Result<seq<Loss>, ParseError>)
    ensures r == ParseDocument(doc)
  {
    var links := FindAll(doc, "a");
    var out: seq<Loss> := [];
    for i := 0 to |links|
      invariant ParseSites(links[..i]) == Ok(out)
    {
      assert links[..i + 1][..i] == links[..i];
      var step := LinkLosses(links[i]);
      if step.Err? {
        ParseSitesStopsAtError(links, i + 1);
        return step;
      }
      out := out + step.value;
    }
    assert links[..|links|] == links;
    r := Ok(out);
  }

  /** The body of the loop of `parse_losses` for one link: the candidate
      filter, the climb to the nearest `li`, the caption match and the
      loop over the numbers of the caption. */
  method LinkLosses(site: Site) returns (r: Result<seq<Loss>, ParseError>)
    ensures r == SiteLosses(site)
  {
    var link := site.node;
    if !IsCandidateText(link.text) {
      return Ok([]);
    }
    var parent := ClimbToListItem(site);
    var m := MatchCaption(StripSpace(ExtractTails(parent)));
    if m.None? {
      return Ok([]);
    }
    r := EmitRecords(link, StripColons(m.value));
  }

  /** `while parent is not None and parent.tag != 'li': parent =
      parent.getparent()`, starting from the link itself. */
  method ClimbToListItem(site: Site) returns (parent: Option<Node>)
    ensures parent == NearestListItem(site)
  {
    var chain := [site.node] + site.ancestors;
    parent := Some(site.node);
    var up := 0;
    while parent.Some? && parent.value.tag != "li"
      invariant up < |chain| ==> parent == Some(chain[up])
      invariant up <= |chain| && (up == |chain| <==> parent.None?)
      invariant forall j :: 0 <= j < up ==> chain[j].tag != "li"
      decreases |chain| - up
    {
      up := up + 1;
      parent := if up < |chain| then Some(chain[up]) else None;
    }
    FirstTaggedAt(chain, "li", up);
  }

  /** The records of a candidate whose caption matched with type `kind`:
      for each number of the link text, the status and the link are looked
      up again and one record is yielded. */
  method EmitRecords(link: Node, kind: string) returns (r: Result<seq<Loss>, ParseError>)
    ensures r == EmitSpec(link, kind)
  {
    var runs := DigitRuns(link.text);
    ghost var spec := EmitSpec(link, kind);
    var out: seq<Loss> := [];
    for j := 0 to |runs|
      invariant j > 0 ==> spec.Ok? && |spec.value| == |runs| && out == spec.value[..j]
      invariant j == 0 ==> out == []
    {
      var status := PickStatus(link.text);
      if status.None? {
        return Err(NoStatus);
      }
      if "href" !in link.attrs {
        return Err(MissingHref);
      }
      var loss := Loss(kind, StatusValue(status.value), DecimalValue(runs[j]), NormalizeLink(link.attrs["href"]));
      assert spec.value[j] == loss;
      out := out + [loss];
    }
    if runs != [] {
      assert spec.value[..|runs|] == spec.value;
    }
    r := Ok(out);
  }

  /** The climb stopped at the first `li` of the chain, or ran off its end. */
  lemma FirstTaggedAt(chain: seq<Node>, tag: string, up: nat)
    requires up <= |chain|
    requires forall j :: 0 <= j < up ==> chain[j].tag != tag
    requires up < |chain| ==> chain[up].tag == tag
    ensures FirstTagged(chain, tag) == if up < |chain| then Some(chain[up]) else None
  {
    var r := FirstTagged(chain, tag);
    if r.Some? {
      var k :| 0 <= k < |chain| && chain[k] == r.value && r.value.tag == tag
               && forall j :: 0 <= j < k ==> chain[j].tag != tag;
      assert k <= up;
      assert chain[up].tag == tag ==> k >= up;
    }
  }

  /** After a failing link, later links are never looked at. */
  lemma {:induction false} ParseSitesStopsAtError(sites: seq<Site>, n: nat)
    requires n <= |sites| && ParseSites(sites[..n]).Err?
    ensures ParseSites(sites) == ParseSites(sites[..n])
    decreases |sites| - n
  {
    if n < |sites| {
      assert sites[..n + 1][..n] == sites[..n];
      assert ParseSites(sites[..n + 1]) == ParseSites(sites[..n]);
      ParseSitesStopsAtError(sites, n + 1);
    } else {
      assert sites[..n] == sites;
    }
  }

  // ---------------------------------------------------------------------
  // Properties of the extraction

  /** What one link contributes: nothing unless it is a candidate inside a
      list item whose tails match the caption pattern; a failure only when
      its text has numbers, naming the missing status first; otherwise one
      record per number, in order, all sharing type, status and link. */
  lemma SiteLossesSpec(site: Site)
    ensures var r := SiteLosses(site);
      && (r.Err? || r.value != [] ==>
            IsCandidateText(site.node.text) && NearestListItem(site).Some? && Caption(site).Some?)
      && (r.Err? ==> DigitRuns(site.node.text) != []
                     && (r.error == NoStatus <==> PickStatus(site.node.text).None?))
      && (r.Ok? && r.value != [] ==>
            var runs := DigitRuns(site.node.text);
            && |r.value| == |runs|
            && PickStatus(site.node.text).Some?
            && "href" in site.node.attrs
            && forall k :: 0 <= k < |runs| ==>
                 r.value[k] == Loss(StripColons(Caption(site).value),
                                    StatusValue(PickStatus(site.node.text).value),
                                    DecimalValue(runs[k]),
                                    NormalizeLink(site.node.attrs["href"])))
  {
    var r := SiteLosses(site);
    if r.Err? {
      NoListItemNoCaption(site);
    }
    if r.Ok? && r.value != [] {
      NoListItemNoCaption(site);
    }
  }

  /** The converse for a match: a candidate whose caption matches and whose
      text has numbers, a status and an `href` yields its records. */
  lemma SiteLossesComplete(site: Site)
    requires IsCandidateText(site.node.text) && Caption(site).Some?
    requires DigitRuns(site.node.text) != [] && PickStatus(site.node.text).Some?
    requires "href" in site.node.attrs
    ensures SiteLosses(site).Ok? && |SiteLosses(site).value| == |DigitRuns(site.node.text)| > 0
  {
  }

  /** A link with no `li` above it ends the climb at None; the empty text
      then fails the caption pattern, so the link yields nothing. */
  lemma NoListItemNoCaption(site: Site)
    ensures NearestListItem(site).None? ==> Caption(site).None? && SiteLosses(site) == Ok([])
  {
    assert StripSpace("") == "";
    assert SpanEnd("", Digit, 0) == 0;
  }

  /** Nothing but the candidate filter lets a link through: a link whose
      text is not parenthesised yields nothing, whatever surrounds it. */
  lemma NonCandidateSkipped(site: Site)
    requires !IsCandidateText(site.node.text)
    ensures SiteLosses(site) == Ok([])
  {
  }

  /** A caption without numbers cannot fail, with or without a status. */
  lemma NoDigitsNoFault(site: Site)
    requires forall k :: 0 <= k < |site.node.text| ==> !IsDigit(site.node.text[k])
    ensures SiteLosses(site) == Ok([])
  {
    DigitRunsEmpty(site.node.text);
  }

  /** The status picked is the first of the enum order mentioned in the
      text; none is picked exactly when none is mentioned. */
  lemma PickStatusSpec(text: string)
    ensures PickStatus(text).None? <==> forall s: Status :: !Mentions(text, s)
    ensures PickStatus(text).Some? ==>
      var s := PickStatus(text).value;
      Mentions(text, s) && forall t: Status :: Rank(t) < Rank(s) ==> !Mentions(text, t)
  {
    FirstMentionedSpec(text, Statuses);
    var r := PickStatus(text);
    if r.Some? {
      var j :| 0 <= j < |Statuses| && Statuses[j] == r.value && Mentions(text, r.value)
               && forall i :: 0 <= i < j ==> !Mentions(text, Statuses[i]);
      assert Rank(Statuses[j]) == j;
      forall t: Status | Rank(t) < Rank(r.value) ensures !Mentions(text, t) {
        assert t == Statuses[Rank(t)];
      }
    } else {
      forall t: Status ensures !Mentions(text, t) {
        assert t == Statuses[Rank(t)];
      }
    }
  }

  /** Position of a status in the enum order. */
  function Rank(s: Status): (k: nat)
    ensures k < |Statuses| && Statuses[k] == s
  {
    match s
    case Destroyed => 0
    case Captured => 1
    case Damaged => 2
    case Abandoned => 3
    case Sunk => 4
    case Scuttled => 5
  }

  // ---------------------------------------------------------------------
  // Sequencing over links

  lemma ThenAssociative(a: Result<seq<Loss>, ParseError>, b: Result<seq<Loss>, ParseError>,
                        c: Result<seq<Loss>, ParseError>)
    ensures Then(Then(a, b), c) == Then(a, Then(b, c))
  {
    if a.Ok? && b.Ok? && c.Ok? {
      assert a.value + b.value + c.value == a.value + (b.value + c.value);
    }
  }

  /** The records of consecutive runs of links are concatenated in document
      order, and the first failure among them is the one reported. */
  lemma {:induction false} ParseSitesAppend(a: seq<Site>, b: seq<Site>)
    ensures ParseSites(a + b) == Then(ParseSites(a), ParseSites(b))
    decreases |b|
  {
    if b == [] {
      assert a + b == a;
      if ParseSites(a).Ok? {
        assert ParseSites(a).value + [] == ParseSites(a).value;
      }
    } else {
      var b' := b[..|b| - 1];
      assert (a + b)[..|a + b| - 1] == a + b';
      assert (a + b)[|a + b| - 1] == b[|b| - 1];
      ParseSitesAppend(a, b');
      ThenAssociative(ParseSites(a), ParseSites(b'), SiteLosses(b[|b| - 1]));
    }
  }

  // ---------------------------------------------------------------------
  // Tails

  /** The tails of a sequence of found elements, concatenated. */
  function SiteTails(sites: seq<Site>): string
  {
    if sites == [] then "" else SiteTails(sites[..|sites| - 1]) + sites[|sites| - 1].node.tail
  }

  lemma {:induction false} SiteTailsAppend(a: seq<Site>, b: seq<Site>)
    ensures SiteTails(a + b) == SiteTails(a) + SiteTails(b)
    decreases |b|
  {
    if b == [] {
      assert a + b == a;
    } else {
      assert (a + b)[..|a + b| - 1] == a + b[..|b| - 1];
      SiteTailsAppend(a, b[..|b| - 1]);
    }
  }

  /** `_extract_tails(n)` is `n`'s own tail followed by the tails of all its
      descendants in document order; no element's text takes part. */
  lemma {:induction false} TailsInDocumentOrder(n: Node, above: seq<Node>)
    ensures Tails(n) == n.tail + SiteTails(Descendants(n, above))
    decreases n, 1
  {
    ChildTailsInDocumentOrder(n.children, [n] + above);
  }

  lemma {:induction false} ChildTailsInDocumentOrder(cs: seq<Node>, path: seq<Node>)
    ensures ChildTails(cs) == SiteTails(ChildSites(cs, path))
    decreases cs, 0
  {
    if cs != [] {
      var last := cs[|cs| - 1];
      ChildTailsInDocumentOrder(cs[..|cs| - 1], path);
      TailsInDocumentOrder(last, path);
      SiteTailsAppend(ChildSites(cs[..|cs| - 1], path) + [Site(last, path)], Descendants(last, path));
      SiteTailsAppend(ChildSites(cs[..|cs| - 1], path), [Site(last, path)]);
      assert SiteTails([Site(last, path)]) == last.tail;
    }
  }

  // ---------------------------------------------------------------------
  // Link normalisation

  /** A normalised link starts with `http` and has no later `http`; without
      `http` in the stripped `href` it is `http` followed by all of it. */
  lemma NormalizeLinkShape(href: string)
    ensures var u := NormalizeLink(href);
      && |u| >= 4 && u[..4] == "http" && !Contains(u[4..], "http")
      && (!Contains(StripSpace(href), "http") ==> u == "http" + StripSpace(href))
  {
    LastPieceShape(StripSpace(href), "http");
    var u := NormalizeLink(href);
    assert u[4..] == LastPiece(StripSpace(href), "http");
  }

  /** Past a leading `http`, the only occurrences of `http` in `"http" + r`
      are those of `r`: the pattern cannot overlap itself. */
  lemma HttpOccurrences(r: string, k: int)
    requires k >= 1
    ensures OccursAt("http" + r, "http", k) <==> k >= 4 && OccursAt(r, "http", k - 4)
  {
    var s := "http" + r;
    if k >= 4 && k + 4 <= |s| {
      assert s[k..k + 4] == r[k - 4..k];
    }
    if 1 <= k < 4 && k + 4 <= |s| {
      assert s[k] != 'h';
      assert s[k..k + 4][0] == s[k];
      assert !OccursAt(s, "http", k);
    }
  }

  /** Splitting `"http" + r` on `http`, when `r` has none, leaves `r`. */
  lemma LastPieceAfterHttp(r: string)
    requires !Contains(r, "http")
    ensures LastPiece("http" + r, "http") == r
  {
    var s := "http" + r;
    ContainsSpec(r, "http");
    forall k | 4 <= k ensures !OccursAt(s, "http", k) {
      HttpOccurrences(r, k);
    }
    assert s[0..4] == "http";
    LastPieceFromNone(s, "http", 4, 4);
    assert s[4..] == r;
  }

  /** Normalising a normalised link changes nothing. */
  lemma NormalizeLinkIdempotent(href: string)
    ensures NormalizeLink(NormalizeLink(href)) == NormalizeLink(href)
  {
    var t := StripSpace(href);
    var r := LastPiece(t, "http");
    var u := "http" + r;
    TrimSpec(href, Space);
    LastPieceShape(t, "http");
    assert r == t[|t| - |r|..];
    if r != [] {
      assert u[|u| - 1] == t[|t| - 1];
    }
    TrimFixed(u, Space);
    LastPieceAfterHttp(r);
  }

  // ---------------------------------------------------------------------
  // Edge cases of the rules, on concrete captions

  /** Enum order, not text order, decides: `captured` comes first in the
      caption but `destroyed` comes first in the enum. */
  lemma StatusByEnumOrder()
    ensures PickStatus("(1, captured, destroyed)") == Some(Destroyed)
  {
    assert Mentions("(1, captured, destroyed)", Destroyed) by {
      assert OccursAt("(1, captured, destroyed)", "destroyed", 14);
      ContainsSpec("(1, captured, destroyed)", "destroyed");
    }
  }

  /** Matching is case-sensitive: a capitalised status is not found. */
  lemma StatusCaseSensitive()
    ensures PickStatus("(1, Sunk)") == None
  {
    var text := "(1, Sunk)";
    forall j | 0 <= j < |Statuses| ensures !Mentions(text, Statuses[j]) {
      var v := StatusValue(Statuses[j]);
      assert v[0] in "dcas";
      NotContainsByFirstChar(text, v);
    }
    FirstMentionedSpec(text, Statuses);
  }

  /** `strip(':')` removes colons only: the spaces around the type stay. */
  lemma StripColonsKeepsSpaces()
    ensures StripColons(": T-64BV :") == " T-64BV "
  {
  }
}
