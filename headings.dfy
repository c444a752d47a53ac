/** The heading segmenter `segmentByHeadings` (server/dist/modules/feeds/routes.js:555-648):
    every `h1`..`h3` with an acceptable name owns the links inside the siblings that follow
    it, up to the next heading of the same or a higher level and at most 25 siblings. */
module Headings {
  import opened Wrappers
  import opened Text
  import opened Collections
  import opened Urls
  import opened Env
  import opened Dom
  import opened Patterns
  import opened Articles
  import opened Titles

  /** What every anchor test of one request reads. */
  datatype Page = Page(rt: Runtime, url: string, recruit: bool, doc: Document)

  /** The sibling walk takes at most this many steps. */
  const MaxSteps: nat := 25

  /** At most this many articles per heading. */
  const MaxHeadingArticles: nat := 30

  /** A heading name the segmenter accepts. */
  predicate IsAcceptedHeading(name: string) {
    name != [] && 2 <= |name| <= 30 && !IsSiteChromeHeading(name) && !IsBlacklistedHeading(name)
  }

  /** The walk stops at a heading whose level is at most the current heading's. */
  predicate StopsWalk(doc: Document, w: nat, level: nat)
    requires w < |doc|
  {
    IsHeadingTag(doc[w].tag) && HeadingLevel(doc[w].tag) <= level
  }

  /** The siblings from `walker` on, up to the first stopping heading or the last sibling.
      The walk visits at most `MaxSteps` of them. */
  function Chain(doc: Document, walker: Option<nat>, level: nat): (r: seq<nat>)
    requires walker.Some? ==> walker.value < |doc|
    ensures forall k :: 0 <= k < |r| ==> r[k] < |doc|
    decreases if walker.Some? then |doc| - walker.value else 0
  {
    if walker.None? || StopsWalk(doc, walker.value, level) then []
    else [walker.value] + Chain(doc, NextSibling(doc, walker.value), level)
  }

  /** No sibling of the chain is a stopping heading, each is the next sibling of the one
      before, and after the last one the siblings run out or a stopping heading comes. */
  lemma {:induction false} ChainShape(doc: Document, walker: Option<nat>, level: nat)
    requires walker.Some? ==> walker.value < |doc|
    ensures var r := Chain(doc, walker, level);
      && (forall k :: 0 <= k < |r| ==> !StopsWalk(doc, r[k], level))
      && (r != [] ==> walker == Some(r[0]))
      && (forall k :: 0 <= k < |r| - 1 ==> NextSibling(doc, r[k]) == Some(r[k + 1]))
      && (var after := if r == [] then walker else NextSibling(doc, r[|r| - 1]);
          after.None? || StopsWalk(doc, after.value, level))
    decreases if walker.Some? then |doc| - walker.value else 0
  {
    if walker.Some? && !StopsWalk(doc, walker.value, level) {
      var next := NextSibling(doc, walker.value);
      ChainShape(doc, next, level);
      var rest := Chain(doc, next, level);
      var r := Chain(doc, walker, level);
      assert r == [walker.value] + rest;
      forall k | 0 <= k < |r| - 1 ensures NextSibling(doc, r[k]) == Some(r[k + 1]) {
        if k > 0 {
          assert r[k] == rest[k - 1] && r[k + 1] == rest[k];
        }
      }
      if rest != [] {
        assert r[|r| - 1] == rest[|rest| - 1];
      }
    }
  }

  lemma ChainStep(doc: Document, w: nat, level: nat)
    requires w < |doc| && !StopsWalk(doc, w, level)
    ensures Chain(doc, Some(w), level) == [w] + Chain(doc, NextSibling(doc, w), level)
  {
  }

  /** The region heading `h` owns: the first `MaxSteps` siblings of its chain. */
  function HeadingRegion(doc: Document, h: nat): (r: seq<nat>)
    requires h < |doc|
    ensures forall k :: 0 <= k < |r| ==> r[k] < |doc|
  {
    Take(Chain(doc, NextSibling(doc, h), HeadingLevel(doc[h].tag)), MaxSteps)
  }

  /** Where the walk ends, the siblings it visited are the region. */
  lemma WalkEnds(doc: Document, h: nat, visited: seq<nat>, walker: Option<nat>, level: nat)
    requires h < |doc| && level == HeadingLevel(doc[h].tag)
    requires walker.Some? ==> walker.value < |doc|
    requires Chain(doc, NextSibling(doc, h), level) == visited + Chain(doc, walker, level)
    requires |visited| <= MaxSteps
    requires walker.None? || |visited| == MaxSteps || StopsWalk(doc, walker.value, level)
    ensures HeadingRegion(doc, h) == visited
  {
    var chain := Chain(doc, NextSibling(doc, h), level);
    assert chain[..|visited|] == visited;
  }

  /** The walk after heading `h` visits at most 25 siblings, none of them a stopping
      heading, each the next sibling of the one before; it ends before 25 steps only when
      the siblings run out or a heading of the same or a higher level comes. */
  lemma RegionShape(doc: Document, h: nat)
    requires h < |doc|
    ensures var r := HeadingRegion(doc, h);
      var level := HeadingLevel(doc[h].tag);
      && |r| <= MaxSteps
      && (forall k :: 0 <= k < |r| ==> !StopsWalk(doc, r[k], level))
      && (r != [] ==> NextSibling(doc, h) == Some(r[0]))
      && (forall k :: 0 <= k < |r| - 1 ==> NextSibling(doc, r[k]) == Some(r[k + 1]))
      && (|r| < MaxSteps ==>
            var after := if r == [] then NextSibling(doc, h) else NextSibling(doc, r[|r| - 1]);
            after.None? || StopsWalk(doc, after.value, level))
  {
    var level := HeadingLevel(doc[h].tag);
    var c := Chain(doc, NextSibling(doc, h), level);
    ChainShape(doc, NextSibling(doc, h), level);
    var r := HeadingRegion(doc, h);
    assert r == c[..|r|];
    forall k | 0 <= k < |r| - 1 ensures NextSibling(doc, r[k]) == Some(r[k + 1]) {
      assert r[k] == c[k] && r[k + 1] == c[k + 1];
    }
    if |r| < MaxSteps {
      assert r == c;
    }
  }

  /** `$(a).parent().text()`. */
  function ParentText(doc: Document, a: nat): string
    requires a < |doc|
  {
    match Parent(doc, a)
    case None => []
    case Some(p) => doc[p].text
  }

  /** The anchor filter of the walk, in the order the source applies its tests. */
  function AdmitAnchor(pg: Page, a: nat): Option<Article>
    requires a < |pg.doc|
  {
    var text := Trim(pg.doc[a].text);
    var href := AttrOrEmpty(pg.doc[a].href);
    if text == [] || href == [] then None
    else if |text| < 4 || |text| > 100 then None
    else if MentionsNavWord(text) then None
    else if IsStopText(text) then None
    else if pg.rt.crumbTail(text).Some? && |text| < 50 then None
    else
      var full := NormalizeUrl(pg.rt.resolve, href, pg.url);
      if full == [] || !IsSameHost(pg.rt.resolve, full, pg.url) then None
      else if |text| < 5 || |text| > 100 then None
      else
        var hasDate := HasDate(text) || HasDate(ParentText(pg.doc, a));
        if pg.recruit && !hasDate then None
        else Some(Article(CollapseSpaces(text), full, pg.rt.now))
  }

  /** What holds of an article taken from anchor `a`, stated as one condition. */
  ghost predicate IsAdmitted(pg: Page, a: nat, art: Article)
    requires a < |pg.doc|
  {
    var text := Trim(pg.doc[a].text);
    var href := AttrOrEmpty(pg.doc[a].href);
    && href != []
    && 5 <= |text| <= 100
    && !MentionsNavWord(text) && !IsStopText(text)
    && !(pg.rt.crumbTail(text).Some? && |text| < 50)
    && art.link == NormalizeUrl(pg.rt.resolve, href, pg.url) && art.link != []
    && IsSameHost(pg.rt.resolve, art.link, pg.url)
    && (pg.recruit ==> HasDate(text) || HasDate(ParentText(pg.doc, a)))
    && art.title == CollapseSpaces(text) && art.pubDate == pg.rt.now
  }

  /** The filter admits exactly the anchors that meet the condition. */
  lemma AdmitAnchorSpec(pg: Page, a: nat, art: Article)
    requires a < |pg.doc|
    ensures AdmitAnchor(pg, a) == Some(art) <==> IsAdmitted(pg, a, art)
  {
  }

  /** The filter as a function on indices (indices outside the document yield nothing). */
  function AdmitAt(pg: Page): nat -> Option<Article> {
    (a: nat) => if a < |pg.doc| then AdmitAnchor(pg, a) else None
  }

  /** The articles inside sibling `w`. */
  function SiblingArticles(pg: Page, w: nat): seq<Article>
    requires w < |pg.doc|
  {
    FilterMap(LinksUnder(pg.doc, w), AdmitAt(pg))
  }

  /** The articles inside the siblings of a region, sibling by sibling. */
  function RegionArticles(pg: Page, region: seq<nat>): seq<Article>
    requires forall k :: 0 <= k < |region| ==> region[k] < |pg.doc|
  {
    if region == [] then [] else SiblingArticles(pg, region[0]) + RegionArticles(pg, region[1..])
  }

  lemma RegionArticlesCons(pg: Page, w: nat, rest: seq<nat>)
    requires w < |pg.doc| && forall k :: 0 <= k < |rest| ==> rest[k] < |pg.doc|
    ensures RegionArticles(pg, [w] + rest) == SiblingArticles(pg, w) + RegionArticles(pg, rest)
  {
    assert ([w] + rest)[1..] == rest;
  }

  lemma {:induction false} RegionArticlesSnoc(pg: Page, region: seq<nat>, w: nat)
    requires w < |pg.doc| && forall k :: 0 <= k < |region| ==> region[k] < |pg.doc|
    ensures RegionArticles(pg, region + [w]) == RegionArticles(pg, region) + SiblingArticles(pg, w)
  {
    if region == [] {
      RegionArticlesCons(pg, w, []);
    } else {
      assert (region + [w])[1..] == region[1..] + [w];
      RegionArticlesSnoc(pg, region[1..], w);
    }
  }

  /** Anchor `x` lies inside one of the siblings of `region`. */
  ghost predicate InRegion(doc: Document, region: seq<nat>, x: nat)
    requires x < |doc|
  {
    exists k :: 0 <= k < |region| && IsDescendant(doc, x, region[k])
  }

  lemma {:induction false} RegionArticlesSource(pg: Page, region: seq<nat>, art: Article)
    requires forall k :: 0 <= k < |region| ==> region[k] < |pg.doc|
    requires art in RegionArticles(pg, region)
    ensures exists x :: 0 <= x < |pg.doc| && IsLink(pg.doc[x]) && InRegion(pg.doc, region, x)
                        && AdmitAt(pg)(x) == Some(art)
  {
    if art in SiblingArticles(pg, region[0]) {
      var anchors := LinksUnder(pg.doc, region[0]);
      FilterMapSource(anchors, AdmitAt(pg), art);
      var k :| 0 <= k < |anchors| && AdmitAt(pg)(anchors[k]) == Some(art);
      assert IsDescendant(pg.doc, anchors[k], region[0]);
      assert InRegion(pg.doc, region, anchors[k]);
    } else {
      RegionArticlesSource(pg, region[1..], art);
      var x :| 0 <= x < |pg.doc| && IsLink(pg.doc[x]) && InRegion(pg.doc, region[1..], x)
               && AdmitAt(pg)(x) == Some(art);
      var k :| 0 <= k < |region[1..]| && IsDescendant(pg.doc, x, region[1..][k]);
      assert IsDescendant(pg.doc, x, region[k + 1]);
    }
  }

  /** Every anchor inside the region that passes the filter contributes its article. */
  lemma {:induction false} RegionArticlesComplete(pg: Page, region: seq<nat>, x: nat, art: Article)
    requires forall k :: 0 <= k < |region| ==> region[k] < |pg.doc|
    requires x < |pg.doc| && IsLink(pg.doc[x]) && InRegion(pg.doc, region, x)
    requires AdmitAt(pg)(x) == Some(art)
    ensures art in RegionArticles(pg, region)
  {
    if IsDescendant(pg.doc, x, region[0]) {
      var anchors := LinksUnder(pg.doc, region[0]);
      var k :| 0 <= k < |anchors| && anchors[k] == x;
      FilterMapComplete(anchors, AdmitAt(pg), k);
    } else {
      var k :| 0 <= k < |region| && IsDescendant(pg.doc, x, region[k]);
      assert IsDescendant(pg.doc, x, region[1..][k - 1]);
      RegionArticlesComplete(pg, region[1..], x, art);
    }
  }

  /** The group of heading `h`, when its name is accepted and at least two distinct links
      are found under it. */
  function HeadingGroup(pg: Page, h: nat): Option<Group>
    requires h < |pg.doc|
  {
    var name := Trim(pg.doc[h].text);
    if !IsAcceptedHeading(name) then None
    else
      var unique := HeadingArticles(pg, h);
      if |unique| >= 2 then Some(Group(SelectBestTitle(pg.rt, name, unique), unique)) else None
  }

  /** The first 30 distinct links found in the region of heading `h`. */
  function HeadingArticles(pg: Page, h: nat): seq<Article>
    requires h < |pg.doc|
  {
    Take(DedupByLink(RegionArticles(pg, HeadingRegion(pg.doc, h))), MaxHeadingArticles)
  }

  /** The articles of a heading have distinct links and each comes from an anchor inside
      the heading's region that passed the filter; when fewer than 30 are returned, the link
      of every anchor in the region that passes the filter is among them. */
  lemma HeadingArticlesSpec(pg: Page, h: nat)
    requires h < |pg.doc|
    ensures |HeadingArticles(pg, h)| <= MaxHeadingArticles
    ensures DistinctLinks(HeadingArticles(pg, h))
    ensures forall art :: art in HeadingArticles(pg, h) ==>
      exists x :: 0 <= x < |pg.doc| && IsLink(pg.doc[x])
                  && InRegion(pg.doc, HeadingRegion(pg.doc, h), x) && IsAdmitted(pg, x, art)
    ensures |HeadingArticles(pg, h)| < MaxHeadingArticles ==>
      forall x, art :: 0 <= x < |pg.doc| && IsLink(pg.doc[x])
                       && InRegion(pg.doc, HeadingRegion(pg.doc, h), x) && IsAdmitted(pg, x, art)
                       ==> art.link in LinkSet(HeadingArticles(pg, h))
  {
    var region := HeadingRegion(pg.doc, h);
    var d := DedupByLink(RegionArticles(pg, region));
    var unique := HeadingArticles(pg, h);
    assert unique == d[..|unique|];
    if |unique| < MaxHeadingArticles {
      assert unique == d;
      forall x, art | 0 <= x < |pg.doc| && IsLink(pg.doc[x]) && InRegion(pg.doc, region, x)
                      && IsAdmitted(pg, x, art)
        ensures art.link in LinkSet(unique)
      {
        AdmitAnchorSpec(pg, x, art);
        RegionArticlesComplete(pg, region, x, art);
        assert art.link in LinkSet(RegionArticles(pg, region));
      }
    }
    forall art | art in unique
      ensures exists x :: 0 <= x < |pg.doc| && IsLink(pg.doc[x])
                          && InRegion(pg.doc, region, x) && IsAdmitted(pg, x, art)
    {
      assert art in d;
      RegionArticlesSource(pg, region, art);
      var x :| 0 <= x < |pg.doc| && IsLink(pg.doc[x]) && InRegion(pg.doc, region, x)
               && AdmitAt(pg)(x) == Some(art);
      AdmitAnchorSpec(pg, x, art);
    }
  }

  /** A heading group has 2 to 30 articles with distinct links, an accepted heading, a
      label chosen from that heading, and every article comes from an anchor inside the
      heading's region that passed the filter. */
  lemma HeadingGroupSpec(pg: Page, h: nat)
    requires h < |pg.doc| && HeadingGroup(pg, h).Some?
    ensures var g := HeadingGroup(pg, h).value;
      var name := Trim(pg.doc[h].text);
      && IsAcceptedHeading(name)
      && 2 <= |g.articles| <= MaxHeadingArticles
      && DistinctLinks(g.articles)
      && g.titleToken == SelectBestTitle(pg.rt, name, g.articles)
      && g.titleToken != []
      && forall art :: art in g.articles ==>
           exists x :: 0 <= x < |pg.doc| && IsLink(pg.doc[x])
                       && InRegion(pg.doc, HeadingRegion(pg.doc, h), x) && IsAdmitted(pg, x, art)
  {
    HeadingArticlesSpec(pg, h);
  }

  predicate IsHeadingNode(n: Node) { IsHeadingTag(n.tag) }

  /** The heading rule as a function on indices. */
  function GroupAt(pg: Page): nat -> Option<Group> {
    (h: nat) => if h < |pg.doc| then HeadingGroup(pg, h) else None
  }

  /** The page facts the filter reads; `None` when the page URL does not parse. */
  function PageOf(rt: Runtime, url: string, doc: Document): Option<Page> {
    match rt.resolve(url, None)
    case None => None
    case Some(u) => Some(Page(rt, url, IsRecruitListPage(u.hostname, url), doc))
  }

  /** What `segmentByHeadings(url, html)` returns; `None` is the throw of `new URL(url)`. */
  function HeadingSegments(rt: Runtime, url: string, doc: Document): Option<seq<Group>> {
    match PageOf(rt, url, doc)
    case None => None
    case Some(pg) => Some(FilterMap(Matching(doc, IsHeadingNode), GroupAt(pg)))
  }

  /** Every group of the heading segmenter comes from one heading and meets
      `HeadingGroupSpec`; in particular every link is on the page's host. */
  lemma HeadingSegmentsSpec(rt: Runtime, url: string, doc: Document, g: Group)
    requires HeadingSegments(rt, url, doc).Some? && g in HeadingSegments(rt, url, doc).value
    ensures 2 <= |g.articles| <= MaxHeadingArticles && DistinctLinks(g.articles) && g.titleToken != []
    ensures forall art :: art in g.articles ==> IsSameHost(rt.resolve, art.link, url)
    ensures exists h :: 0 <= h < |doc| && IsHeadingTag(doc[h].tag) && IsAcceptedHeading(Trim(doc[h].text))
                        && g.titleToken == SelectBestTitle(rt, Trim(doc[h].text), g.articles)
  {
    var pg := PageOf(rt, url, doc).value;
    var hs := Matching(doc, IsHeadingNode);
    FilterMapSource(hs, GroupAt(pg), g);
    var k :| 0 <= k < |hs| && GroupAt(pg)(hs[k]) == Some(g);
    HeadingGroupSpec(pg, hs[k]);
    forall art | art in g.articles ensures IsSameHost(rt.resolve, art.link, url) {
      var x :| 0 <= x < |pg.doc| && IsLink(pg.doc[x])
               && InRegion(pg.doc, HeadingRegion(pg.doc, hs[k]), x) && IsAdmitted(pg, x, art);
    }
  }

  // ---------------------------------------------------------------------------
  // The segmenter as written: the `.each` loops and the bounded `while` walk.

  /** `walker.find('a[href]').each(...)`: the articles inside one sibling. */
  method CollectAnchors(pg: Page, w: nat) returns (articles: seq<Article>)
    requires w < |pg.doc|
    ensures articles == SiblingArticles(pg, w)
  {
    var anchors := LinksUnder(pg.doc, w);
    articles := [];
    for j := 0 to |anchors|
      invariant articles == FilterMap(anchors[..j], AdmitAt(pg))
    {
      assert anchors[..j + 1] == anchors[..j] + [anchors[j]];
      FilterMapSnoc(anchors[..j], anchors[j], AdmitAt(pg));
      var art := AdmitAnchor(pg, anchors[j]);
      if art.Some? {
        articles := articles + [art.value];
      }
    }
    assert anchors[..|anchors|] == anchors;
  }

  /** The `while (walker.length && steps < 25)` walk over the siblings after `h`. */
  method WalkSiblings(pg: Page, h: nat, currentLevel: nat) returns (articles: seq<Article>)
    requires h < |pg.doc| && currentLevel == HeadingLevel(pg.doc[h].tag)
    ensures articles == RegionArticles(pg, HeadingRegion(pg.doc, h))
  {
    articles := [];
    var walker: Option<nat> := NextSibling(pg.doc, h);
    var steps: nat := 0;
    ghost var chain := Chain(pg.doc, walker, currentLevel);
    ghost var visited: seq<nat> := [];
    while walker.Some? && steps < MaxSteps
      invariant walker.Some? ==> walker.value < |pg.doc|
      invariant |visited| == steps <= MaxSteps
      invariant forall k :: 0 <= k < |visited| ==> visited[k] < |pg.doc|
      invariant chain == visited + Chain(pg.doc, walker, currentLevel)
      invariant articles == RegionArticles(pg, visited)
      decreases MaxSteps - steps
    {
      var w := walker.value;
      var tag := pg.doc[w].tag;
      if IsHeadingTag(tag) && HeadingLevel(tag) <= currentLevel {
        break;
      }
      var found := CollectAnchors(pg, w);
      ChainStep(pg.doc, w, currentLevel);
      RegionArticlesSnoc(pg, visited, w);
      AppendAssoc(visited, [w], Chain(pg.doc, NextSibling(pg.doc, w), currentLevel), chain);
      articles := articles + found;
      visited := visited + [w];
      walker := NextSibling(pg.doc, w);
      steps := steps + 1;
    }
    WalkEnds(pg.doc, h, visited, walker, currentLevel);
  }

  /** `segmentByHeadings(url, html)` on the parsed document. */
  method SegmentByHeadings(rt: Runtime, url: string, doc: Document) returns (r: Option<seq<Group>>)
    ensures r == HeadingSegments(rt, url, doc)
  {
    var page := rt.resolve(url, None);
    if page.None? {
      return None;
    }
    var isRecruitListPage := IsRecruitListPage(page.value.hostname, url);
    var pg := Page(rt, url, isRecruitListPage, doc);
    var hs := Matching(doc, IsHeadingNode);
    var groups: seq<Group> := [];
    for i := 0 to |hs|
      invariant groups == FilterMap(hs[..i], GroupAt(pg))
    {
      assert hs[..i + 1] == hs[..i] + [hs[i]];
      FilterMapSnoc(hs[..i], hs[i], GroupAt(pg));
      var h := hs[i];
      var name := Trim(doc[h].text);
      if IsAcceptedHeading(name) {
        var currentLevel := HeadingLevel(doc[h].tag);
        var articles := WalkSiblings(pg, h, currentLevel);
        var unique := Take(DedupByLink(articles), MaxHeadingArticles);
        assert unique == HeadingArticles(pg, h);
        if |unique| >= 2 {
          groups := groups + [Group(SelectBestTitle(rt, name, unique), unique)];
        }
      }
    }
    assert hs[..|hs|] == hs;
    r := Some(groups);
  }
}
