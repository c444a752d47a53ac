/** The pure part of the `/webpage-segmentation` handler (server/dist/modules/feeds/routes.js:2148-2245):
    the mode picks the segmenters, an empty result is retried once on the rendered page,
    and the answer is cut to 15 groups of at most 50 articles. The fetched and decoded page
    and the headless-browser rendering arrive as parameters. */
module Segmentation {
  import opened Wrappers
  import opened Text
  import opened Collections
  import opened Urls
  import opened Env
  import opened Dom
  import opened Patterns
  import opened Articles
  import opened Titles
  import opened Headings
  import opened Clusters
  import opened PathGroups
  import opened Merge

  /** The request's `mode`. */
  datatype Mode = Auto | ByHeadings | ByCluster | ByPattern

  /** The codec the response body is decoded with. */
  datatype Charset = Gbk | Utf8

  /** GBK when the `content-type` header names `charset=gbk` or `charset=gb2312`, else UTF-8. */
  function CharsetFor(contentType: string): Charset {
    if IsGbkCharset(contentType) then Gbk else Utf8
  }

  /** At most this many groups are answered. */
  const MaxGroups: nat := 15

  /** At most this many articles per answered group. */
  const MaxArticles: nat := 50

  /** One answered group: its label, the first article's title, and its first 50 articles. */
  datatype PayloadGroup = PayloadGroup(titleToken: string, contentTokensPreview: string, articles: seq<Article>)

  /** The answer: the groups, the page's suggested title, the mode, and the number of groups
      before the cut to 15. */
  datatype Response = Response(groups: seq<PayloadGroup>, suggestedTitle: string, mode: Mode, totalGroups: nat)

  /** What the three segmenters return for one page; `None` is a throw. */
  datatype Outcomes = Outcomes(headings: Option<seq<Group>>, clusters: Option<seq<Group>>, patterns: Option<seq<Group>>)

  /** The three segmenters on one page. */
  function Run(rt: Runtime, url: string, doc: Document): Outcomes {
    Outcomes(HeadingSegments(rt, url, doc), ClusterSegments(rt, url, doc), PatternSegments(rt, url, doc))
  }

  /** The groups of the static page; `None` when a segmenter throws, which in every mode
      (`auto` included, since the three calls run before `Promise.allSettled` sees them)
      ends the request with a server error. */
  function StaticGroups(mode: Mode, o: Outcomes): Option<seq<Group>> {
    match mode
    case Auto =>
      if o.headings.Some? && o.clusters.Some? && o.patterns.Some?
      then Some(MergeSimilarGroups(o.headings.value + o.clusters.value + o.patterns.value))
      else None
    case ByHeadings => o.headings
    case ByCluster => o.clusters
    case ByPattern => o.patterns
  }

  /** The groups of the rendered page: only the heading segmenter in `auto` mode; a throw is
      caught and leaves no groups. */
  function FallbackGroups(mode: Mode, rendered: Outcomes): seq<Group> {
    var r := match mode
      case Auto => rendered.headings
      case ByHeadings => rendered.headings
      case ByCluster => rendered.clusters
      case ByPattern => rendered.patterns;
    r.GetOr([])
  }

  /** The groups after the single fallback: the static groups, or when there are none and a
      rendering was obtained, the groups of the rendering. */
  function FinalGroups(mode: Mode, staticGroups: seq<Group>, rendered: Option<Outcomes>): seq<Group> {
    if staticGroups == [] && rendered.Some? then FallbackGroups(mode, rendered.value) else staticGroups
  }

  /** `articles[0]?.title || ''`. */
  function Preview(articles: seq<Article>): string {
    if articles == [] then [] else articles[0].title
  }

  function ToPayload(g: Group): PayloadGroup {
    PayloadGroup(g.titleToken, Preview(g.articles), Take(g.articles, MaxArticles))
  }

  /** The answered groups: each group's first 50 articles, the first 15 groups. */
  function Payload(groups: seq<Group>): seq<PayloadGroup> {
    Take(seq(|groups|, i requires 0 <= i < |groups| => ToPayload(groups[i])), MaxGroups)
  }

  /** The answer for the final `groups`: at most 15 groups of at most 50 articles,
      `totalGroups` counts the groups before the cut, and the answer holds min(15,
      totalGroups) groups, each the label, the first title and the leading articles of one
      group, in order. */
  function Respond(mode: Mode, groups: seq<Group>, suggestedTitle: string): (r: Response)
    ensures r.mode == mode && r.suggestedTitle == suggestedTitle
    ensures r.totalGroups == |groups|
    ensures |r.groups| == if |groups| < MaxGroups then |groups| else MaxGroups
    ensures forall i :: 0 <= i < |r.groups| ==>
      && |r.groups[i].articles| <= MaxArticles
      && r.groups[i].titleToken == groups[i].titleToken
      && |r.groups[i].articles| == (if |groups[i].articles| < MaxArticles then |groups[i].articles| else MaxArticles)
      && r.groups[i].articles == groups[i].articles[..|r.groups[i].articles|]
      && (groups[i].articles != [] ==> r.groups[i].contentTokensPreview == groups[i].articles[0].title)
  {
    Response(Payload(groups), suggestedTitle, mode, |groups|)
  }

  /** The answer once the static segmentation and the suggested title are computed (either
      may have thrown), given what the rendering would yield. */
  function Conclude(mode: Mode, staticGroups: Option<seq<Group>>, suggestedTitle: Option<string>,
                    rendered: Option<Outcomes>): Option<Response> {
    if staticGroups.None? || suggestedTitle.None? then None
    else Some(Respond(mode, FinalGroups(mode, staticGroups.value, rendered), suggestedTitle.value))
  }

  /** The rendering's outcomes, when the headless browser produced a page. */
  function Rendered(rt: Runtime, url: string, snapshot: Option<Document>): Option<Outcomes> {
    if snapshot.Some? then Some(Run(rt, url, snapshot.value)) else None
  }

  /** The answer of `/webpage-segmentation` for a fetched and decoded page `doc`; `snapshot`
      is what the headless browser would render (`None` when it fails), consulted only when
      the static page yields no group. `None` is the server error of a throw. */
  function Segment(rt: Runtime, url: string, mode: Mode, doc: Document, snapshot: Option<Document>): Option<Response> {
    Conclude(mode, StaticGroups(mode, Run(rt, url, doc)), ExtractSuggestedTitle(rt, url, doc), Rendered(rt, url, snapshot))
  }

  /** The rendering is used at most once and only when the static page gave no group: with
      static groups the answer does not depend on the rendering; without them it is the
      one rendering's groups (in `auto` mode, the heading segmenter's alone, and none when
      that segmenter throws); and without a rendering there is no group at all. */
  lemma FallbackOnce(mode: Mode, staticGroups: seq<Group>, suggestedTitle: string, rendered: Option<Outcomes>)
    ensures staticGroups != [] ==>
      Conclude(mode, Some(staticGroups), Some(suggestedTitle), rendered)
        == Conclude(mode, Some(staticGroups), Some(suggestedTitle), None)
    ensures staticGroups == [] && rendered.Some? ==>
      FinalGroups(mode, staticGroups, rendered)
        == match mode
           case Auto => rendered.value.headings.GetOr([])
           case ByHeadings => rendered.value.headings.GetOr([])
           case ByCluster => rendered.value.clusters.GetOr([])
           case ByPattern => rendered.value.patterns.GetOr([])
    ensures staticGroups == [] && rendered.None? ==>
      var r := Conclude(mode, Some(staticGroups), Some(suggestedTitle), rendered).value;
      r.groups == [] && r.totalGroups == 0
  {
  }

  /** A throw of any segmenter the mode runs, or of the suggested-title extraction, is a
      server error; in `auto` mode one throwing segmenter is enough. */
  lemma ThrowIsServerError(mode: Mode, o: Outcomes, suggestedTitle: Option<string>, rendered: Option<Outcomes>)
    ensures Conclude(mode, StaticGroups(mode, o), suggestedTitle, rendered).None?
        <==> suggestedTitle.None?
             || (mode == Auto && (o.headings.None? || o.clusters.None? || o.patterns.None?))
             || (mode == ByHeadings && o.headings.None?)
             || (mode == ByCluster && o.clusters.None?)
             || (mode == ByPattern && o.patterns.None?)
  {
  }

  /** Every group some segmenter returns for `url` has at least two articles, all on the
      page's host. */
  ghost predicate WellFormed(rt: Runtime, url: string, groups: seq<Group>) {
    forall g :: g in groups ==>
      |g.articles| >= 2 && forall a :: a in g.articles ==> IsSameHost(rt.resolve, a.link, url)
  }

  /** Heading groups, and what the merge makes, have pairwise distinct links as well. */
  ghost predicate Deduplicated(groups: seq<Group>) {
    forall g :: g in groups ==> DistinctLinks(g.articles)
  }

  /** What the segmenters promise of their groups for `url`. */
  ghost predicate Sound(rt: Runtime, url: string, o: Outcomes) {
    && (o.headings.Some? ==> WellFormed(rt, url, o.headings.value) && Deduplicated(o.headings.value))
    && (o.clusters.Some? ==> WellFormed(rt, url, o.clusters.value))
    && (o.patterns.Some? ==> WellFormed(rt, url, o.patterns.value))
  }

  /** The three segmenters keep their promises on any page. */
  lemma RunSound(rt: Runtime, url: string, doc: Document)
    ensures Sound(rt, url, Run(rt, url, doc))
  {
    var o := Run(rt, url, doc);
    if o.headings.Some? {
      forall g | g in o.headings.value
        ensures |g.articles| >= 2 && DistinctLinks(g.articles)
        ensures forall a :: a in g.articles ==> IsSameHost(rt.resolve, a.link, url)
      {
        HeadingSegmentsSpec(rt, url, doc, g);
      }
    }
    if o.clusters.Some? {
      ClusterSegmentsSpec(rt, url, doc);
    }
    if o.patterns.Some? {
      PatternSegmentsSpec(rt, url, doc);
    }
  }

  /** The merge keeps what every input article satisfied. */
  lemma MergeWellFormed(rt: Runtime, url: string, gs: seq<Group>)
    requires forall g :: g in gs ==> forall a :: a in g.articles ==> IsSameHost(rt.resolve, a.link, url)
    ensures WellFormed(rt, url, MergeSimilarGroups(gs))
    ensures Deduplicated(MergeSimilarGroups(gs))
  {
    MergeSimilarGroupsSpec(gs);
    forall m | m in MergeSimilarGroups(gs)
      ensures forall a :: a in m.articles ==> IsSameHost(rt.resolve, a.link, url)
    {
      forall a | a in m.articles ensures IsSameHost(rt.resolve, a.link, url) {
        var g :| g in gs && Label(g) == m.titleToken && a in g.articles;
      }
    }
  }

  /** Whatever the mode, every group before the cuts has at least two articles, all on the
      page's host; in `auto` and `headings` mode their links are pairwise distinct too. */
  lemma FinalGroupsWellFormed(rt: Runtime, url: string, mode: Mode, o: Outcomes, rendered: Option<Outcomes>)
    requires Sound(rt, url, o) && (rendered.Some? ==> Sound(rt, url, rendered.value))
    requires StaticGroups(mode, o).Some?
    ensures var groups := FinalGroups(mode, StaticGroups(mode, o).value, rendered);
      && WellFormed(rt, url, groups)
      && ((mode == Auto || mode == ByHeadings) ==> Deduplicated(groups))
  {
    if mode == Auto {
      var all := o.headings.value + o.clusters.value + o.patterns.value;
      assert WellFormed(rt, url, all);
      MergeWellFormed(rt, url, all);
    }
  }

  /** The cuts keep what held of every group. */
  lemma RespondWellFormed(rt: Runtime, url: string, mode: Mode, groups: seq<Group>, suggestedTitle: string)
    requires WellFormed(rt, url, groups)
    ensures forall pg :: pg in Respond(mode, groups, suggestedTitle).groups ==>
      && |pg.articles| >= 2
      && forall a :: a in pg.articles ==> IsSameHost(rt.resolve, a.link, url)
    ensures Deduplicated(groups) ==>
      forall pg :: pg in Respond(mode, groups, suggestedTitle).groups ==> DistinctLinks(pg.articles)
  {
    var r := Respond(mode, groups, suggestedTitle);
    forall pg | pg in r.groups
      ensures |pg.articles| >= 2
      ensures forall a :: a in pg.articles ==> IsSameHost(rt.resolve, a.link, url)
      ensures Deduplicated(groups) ==> DistinctLinks(pg.articles)
    {
      var i :| 0 <= i < |r.groups| && r.groups[i] == pg;
      var g := groups[i];
      assert g in groups;
      assert pg.articles == g.articles[..|pg.articles|];
      forall a | a in pg.articles ensures a in g.articles {
        var k :| 0 <= k < |pg.articles| && pg.articles[k] == a;
        assert g.articles[k] == a;
      }
    }
  }

  /** Every answered article is on the page's host, every answered group has at least two
      articles, and in `auto` and `headings` mode no two articles of a group share a link. */
  lemma SegmentWellFormed(rt: Runtime, url: string, mode: Mode, doc: Document, snapshot: Option<Document>)
    requires Segment(rt, url, mode, doc, snapshot).Some?
    ensures var r := Segment(rt, url, mode, doc, snapshot).value;
      forall pg :: pg in r.groups ==>
        && |pg.articles| >= 2
        && (forall a :: a in pg.articles ==> IsSameHost(rt.resolve, a.link, url))
        && ((mode == Auto || mode == ByHeadings) ==> DistinctLinks(pg.articles))
  {
    var o := Run(rt, url, doc);
    var rendered := Rendered(rt, url, snapshot);
    RunSound(rt, url, doc);
    if snapshot.Some? {
      RunSound(rt, url, snapshot.value);
    }
    FinalGroupsWellFormed(rt, url, mode, o, rendered);
    var groups := FinalGroups(mode, StaticGroups(mode, o).value, rendered);
    RespondWellFormed(rt, url, mode, groups, ExtractSuggestedTitle(rt, url, doc).value);
  }

  // ---------------------------------------------------------------------------
  // The handler as written.

  /** The segmentation of the static page: the three segmenters and the merge in `auto`
      mode, the chosen segmenter otherwise. */
  method SegmentStatic(rt: Runtime, url: string, mode: Mode, doc: Document) returns (r: Option<seq<Group>>)
    ensures r == StaticGroups(mode, Run(rt, url, doc))
  {
    if mode == Auto {
      var headingsResult := SegmentByHeadings(rt, url, doc);
      var clusterResult := SegmentByClusters(rt, url, doc);
      var patternResult := SegmentByPathPatterns(rt, url, doc);
      if headingsResult.None? || clusterResult.None? || patternResult.None? {
        return None;
      }
      var allGroups := headingsResult.value + clusterResult.value + patternResult.value;
      var merged := MergeGroups(allGroups);
      r := Some(merged);
    } else if mode == ByHeadings {
      r := SegmentByHeadings(rt, url, doc);
    } else if mode == ByCluster {
      r := SegmentByClusters(rt, url, doc);
    } else {
      r := SegmentByPathPatterns(rt, url, doc);
    }
  }

  /** The segmentation of the rendered page, inside its `try`: a throw leaves no groups. */
  method SegmentSnapshot(rt: Runtime, url: string, mode: Mode, snapshot: Document) returns (r: seq<Group>)
    ensures r == FallbackGroups(mode, Run(rt, url, snapshot))
  {
    ghost var o := Run(rt, url, snapshot);
    var fallback: Option<seq<Group>>;
    if mode == Auto || mode == ByHeadings {
      fallback := SegmentByHeadings(rt, url, snapshot);
      assert fallback == o.headings;
    } else if mode == ByCluster {
      fallback := SegmentByClusters(rt, url, snapshot);
      assert fallback == o.clusters;
    } else {
      fallback := SegmentByPathPatterns(rt, url, snapshot);
      assert fallback == o.patterns;
    }
    r := if fallback.Some? then fallback.value else [];
  }

  /** The answer once the static groups and the suggested title are known: the one
      fallback when there is no group, then the cuts. */
  method Answer(rt: Runtime, url: string, mode: Mode, staticGroups: seq<Group>, suggestedTitle: string,
                snapshot: Option<Document>) returns (r: Response)
    ensures Some(r) == Conclude(mode, Some(staticGroups), Some(suggestedTitle), Rendered(rt, url, snapshot))
  {
    var groups := staticGroups;
    if |groups| == 0 && snapshot.Some? {
      groups := SegmentSnapshot(rt, url, mode, snapshot.value);
    }
    r := Respond(mode, groups, suggestedTitle);
  }

  /** The `/webpage-segmentation` handler after the fetch: the static segmentation, the
      suggested title, the one fallback and the formatting of the answer. `snapshot` stands
      for the `getSnapshotHtml(url)` call, which is made only when no group was found. */
  method HandleSegmentation(rt: Runtime, url: string, mode: Mode, doc: Document, snapshot: Option<Document>)
    returns (r: Option<Response>)
    ensures r == Segment(rt, url, mode, doc, snapshot)
  {
    var result := SegmentStatic(rt, url, mode, doc);
    if result.None? {
      return None;
    }
    var groups := result.value;
    var suggestedTitle := ExtractSuggestedTitle(rt, url, doc);
    if suggestedTitle.None? {
      return None;
    }
    var response := Answer(rt, url, mode, groups, suggestedTitle.value, snapshot);
    r := Some(response);
  }
}
