/**
 * The parsed HTML document, as the lxml element tree presents it to the
 * parser. Parsing the bytes themselves (lxml's lenient HTML parser) is not
 * modelled: a document is given as its tree. A missing `text` or `tail`
 * (None in lxml) is the empty string, which every use in the parser treats
 * the same way.
 */
module Html {
  import opened Wrappers

  /** One element: its lower-cased tag, the text before its first child,
      the text after its end tag (`tail`), its attributes and its children
      in document order. Comments are elements too, with a tag of their own. */
  datatype Node = Node(
    tag: string,
    text: string,
    tail: string,
    attrs: map<string, string>,
    children: seq<Node>)

  /** An element found in a document together with its ancestors, nearest
      first; the last ancestor is the document root. This is the path
      `getparent()` walks. */
  datatype Site = Site(node: Node, ancestors: seq<Node>)

  /** The proper descendants of `n`, in document order (pre-order), each with
      its ancestor path; `above` is the path from `n`'s parent upwards. */
  function Descendants(n: Node, above: seq<Node>): seq<Site>
    decreases n, 1
  {
    ChildSites(n.children, [n] + above)
  }

  /** The sites of the elements `cs` (children of `path[0]`) and of their
      descendants, in document order. */
  function ChildSites(cs: seq<Node>, path: seq<Node>): seq<Site>
    decreases cs, 0
  {
    if cs == [] then []
    else
      var last := cs[|cs| - 1];
      ChildSites(cs[..|cs| - 1], path) + [Site(last, path)] + Descendants(last, path)
  }

  /** `root.findall(".//" + tag)`: the descendants with that tag, in
      document order. */
  function FindAll(root: Node, tag: string): (r: seq<Site>)
    ensures forall k :: 0 <= k < |r| ==> r[k].node.tag == tag
  {
    Filter(Descendants(root, []), tag)
  }

  function Filter(sites: seq<Site>, tag: string): (r: seq<Site>)
    ensures forall k :: 0 <= k < |r| ==> r[k].node.tag == tag
  {
    if sites == [] then []
    else
      var rest := Filter(sites[..|sites| - 1], tag);
      var last := sites[|sites| - 1];
      if last.node.tag == tag then rest + [last] else rest
  }

  lemma {:induction false} FilterMembers(sites: seq<Site>, tag: string)
    ensures forall s :: s in Filter(sites, tag) <==> s in sites && s.node.tag == tag
  {
    if sites != [] {
      FilterMembers(sites[..|sites| - 1], tag);
      assert sites == sites[..|sites| - 1] + [sites[|sites| - 1]];
    }
  }

  /** `findall` misses no element with the tag and returns no other. */
  lemma FindAllMembers(root: Node, tag: string)
    ensures forall s :: s in FindAll(root, tag) <==> s in Descendants(root, []) && s.node.tag == tag
  {
    FilterMembers(Descendants(root, []), tag);
  }

  /** `chain` is a path of parents from `n` upwards: each element of it
      has the previous one among its children. */
  ghost predicate ParentPath(n: Node, chain: seq<Node>)
  {
    && |chain| > 0
    && n in chain[0].children
    && forall k :: 0 <= k < |chain| - 1 ==> chain[k] in chain[k + 1].children
  }

  /** A site's ancestors are a true parent path ending at the root. */
  ghost predicate RootedAt(s: Site, root: Node)
  {
    ParentPath(s.node, s.ancestors) && s.ancestors[|s.ancestors| - 1] == root
  }

  /** Sites under `path[0]` carry `path` itself as the tail of their
      ancestor list, with a parent path leading up to it. */
  ghost predicate Under(s: Site, path: seq<Node>)
  {
    && |path| > 0
    && |s.ancestors| >= |path|
    && s.ancestors[|s.ancestors| - |path|..] == path
    && ParentPath(s.node, s.ancestors)
  }

  lemma {:induction false} ChildSitesUnder(cs: seq<Node>, path: seq<Node>)
    requires |path| > 0 && forall c :: c in cs ==> c in path[0].children
    requires forall k :: 0 <= k < |path| - 1 ==> path[k] in path[k + 1].children
    ensures forall s :: s in ChildSites(cs, path) ==> Under(s, path)
    decreases cs, 0
  {
    if cs != [] {
      var last := cs[|cs| - 1];
      ChildSitesUnder(cs[..|cs| - 1], path);
      DescendantsUnder(last, path);
      forall s | s in Descendants(last, path) ensures Under(s, path) {
        var p := [last] + path;
        assert s.ancestors[|s.ancestors| - |path|..] == s.ancestors[|s.ancestors| - |p|..][1..];
      }
      assert Under(Site(last, path), path);
    }
  }

  lemma {:induction false} DescendantsUnder(n: Node, path: seq<Node>)
    requires |path| > 0 && n in path[0].children
    requires forall k :: 0 <= k < |path| - 1 ==> path[k] in path[k + 1].children
    ensures forall s :: s in Descendants(n, path) ==> Under(s, [n] + path)
    decreases n, 1
  {
    var p := [n] + path;
    assert forall k :: 0 <= k < |p| - 1 ==> p[k] in p[k + 1].children by {
      forall k | 0 <= k < |p| - 1 ensures p[k] in p[k + 1].children {
        if k > 0 {
          assert p[k] == path[k - 1] && p[k + 1] == path[k];
        }
      }
    }
    ChildSitesUnder(n.children, p);
  }

  /** Every element `findall` returns comes with its true parent path up to
      the root, so climbing it is climbing `getparent()`. */
  lemma FindAllRooted(root: Node, tag: string)
    ensures forall s :: s in FindAll(root, tag) ==> RootedAt(s, root)
  {
    ChildSitesUnder(root.children, [root]);
    FindAllMembers(root, tag);
    forall s | s in FindAll(root, tag) ensures RootedAt(s, root) {
      assert s in Descendants(root, []);
      assert [root] + [] == [root];
      assert Under(s, [root]);
      assert s.ancestors[|s.ancestors| - 1..] == [root];
    }
  }
}
