/** The link-cluster segmenter `segmentByClusters` (server/dist/modules/feeds/routes.js:269-328):
    same-host anchors are grouped by the class of their block container and the first two
    segments of their path, the groups are scored, and the best ten become article groups. */
module Clusters {
  import opened Wrappers
  import opened Text
  import opened Collections
  import opened Urls
  import opened Env
  import opened Dom
  import opened Patterns
  import opened Articles
  import opened Titles

  /** At most this many clusters are returned. */
  const MaxClusters: nat := 10

  /** A cluster needs this many links. */
  const MinClusterLinks: nat := 3

  /** The selector `div, section, article, ul, ol`. */
  predicate IsBlockContainer(n: Node) {
    n.tag in ["div", "section", "article", "ul", "ol"]
  }

  /** `$(a).closest('div, section, article, ul, ol').attr('class') || ''`. */
  function ContainerClass(doc: Document, a: nat): string
    requires a < |doc|
  {
    match Closest(doc, a, IsBlockContainer)
    case None => []
    case Some(c) => AttrOrEmpty(doc[c].cls)
  }

  /** The anchor test shared by the cluster and path-pattern collectors: trimmed text of at
      least 3 characters, a non-empty `href`, and an absolute form on the page's host. */
  function CandidateAt(rt: Runtime, url: string, doc: Document, a: nat): (r: Option<Link>)
    requires a < |doc|
    ensures r.Some? ==> |r.value.text| >= 3 && r.value.href != []
                        && IsSameHost(rt.resolve, r.value.fullUrl, url)
  {
    var text := Trim(doc[a].text);
    var href := AttrOrEmpty(doc[a].href);
    if text == [] || href == [] || |text| < 3 then None
    else
      var fullUrl := NormalizeUrl(rt.resolve, href, url);
      if !IsSameHost(rt.resolve, fullUrl, url) then None
      else Some(Link(text, href, fullUrl, ContainerClass(doc, a)))
  }

  /** The anchor test as a function on indices. */
  function CandidateFn(rt: Runtime, url: string, doc: Document): nat -> Option<Link> {
    (a: nat) => if a < |doc| then CandidateAt(rt, url, doc, a) else None
  }

  /** The links `$('a[href]').each(...)` pushes, in document order. */
  function CandidateLinks(rt: Runtime, url: string, doc: Document): seq<Link> {
    FilterMap(Matching(doc, IsLink), CandidateFn(rt, url, doc))
  }

  /** Every collected link passed the anchor test. */
  ghost predicate AllCandidates(rt: Runtime, url: string, links: seq<Link>) {
    forall l :: l in links ==> |l.text| >= 3 && l.href != [] && IsSameHost(rt.resolve, l.fullUrl, url)
  }

  lemma CandidateLinksSpec(rt: Runtime, url: string, doc: Document)
    ensures AllCandidates(rt, url, CandidateLinks(rt, url, doc))
  {
    var anchors := Matching(doc, IsLink);
    forall l | l in CandidateLinks(rt, url, doc)
      ensures |l.text| >= 3 && l.href != [] && IsSameHost(rt.resolve, l.fullUrl, url)
    {
      FilterMapSource(anchors, CandidateFn(rt, url, doc), l);
    }
  }

  /** `$('a[href]').each(...)` as written: the links are pushed one anchor at a time. */
  method CollectCandidates(rt: Runtime, url: string, doc: Document) returns (links: seq<Link>)
    ensures links == CandidateLinks(rt, url, doc)
  {
    var anchors := Matching(doc, IsLink);
    links := [];
    for j := 0 to |anchors|
      invariant links == FilterMap(anchors[..j], CandidateFn(rt, url, doc))
    {
      PrefixSnoc(anchors, j);
      FilterMapSnoc(anchors[..j], anchors[j], CandidateFn(rt, url, doc));
      var link := CandidateFn(rt, url, doc)(anchors[j]);
      if link.Some? {
        links := links + [link.value];
      }
    }
    assert anchors[..|anchors|] == anchors;
  }

  /** Every collected absolute URL parses again on its own (`new URL(link.fullUrl)`). */
  predicate AllParse(rt: Runtime, links: seq<Link>) {
    forall l :: l in links ==> rt.resolve(l.fullUrl, None).Some?
  }

  /** `${link.container}-${pathPrefix}` with the path cut after its second segment. */
  function ClusterKey(rt: Runtime): Link -> string {
    (l: Link) =>
      match rt.resolve(l.fullUrl, None)
      case None => l.container + "-"
      case Some(u) => l.container + "-" + PathPrefix(u.pathname)
  }

  /** A scored cluster: its key, its links, its score and its provisional label. */
  datatype Cluster = Cluster(key: string, links: seq<Link>, score: real, titleToken: string)

  /** `Math.max(n, 1)`. */
  function AtLeastOne(n: nat): (r: real)
    ensures r >= 1.0 && r >= n as real
  {
    if n >= 1 then n as real else 1.0
  }

  /** The date hint of one link text. */
  predicate HasDateHint(l: Link) { HasYearMark(l.text) }

  /** A link text of title length: more than 10 and fewer than 100 characters. */
  predicate IsTitleLike(l: Link) { 10 < |l.text| < 100 }

  /** `0.3·linkDensity + 0.2·uniqueHost + 0.3·dateHit + 0.2·titleDensity` with `uniqueHost`
      fixed at 1. */
  function ClusterScore(clusterLinks: seq<Link>, total: nat): real {
    var linkDensity := |clusterLinks| as real / AtLeastOne(total);
    var dateHit := if exists l :: l in clusterLinks && HasDateHint(l) then 1.0 else 0.0;
    var titleDensity := |Filter(clusterLinks, IsTitleLike)| as real / AtLeastOne(|clusterLinks|);
    linkDensity * 0.3 + 1.0 * 0.2 + dateHit * 0.3 + titleDensity * 0.2
  }

  lemma DivBounds(a: real, b: real)
    requires 0.0 <= a <= b && b >= 1.0
    ensures 0.0 <= a / b <= 1.0
  {
  }

  /** A cluster's score lies between 0.2 and 1: the same-host term alone gives 0.2, so the
      `score > 0.1` filter never rejects anything. */
  lemma ScoreBounds(clusterLinks: seq<Link>, total: nat)
    requires |clusterLinks| <= total
    ensures 0.2 <= ClusterScore(clusterLinks, total) <= 1.0
  {
    DivBounds(|clusterLinks| as real, AtLeastOne(total));
    DivBounds(|Filter(clusterLinks, IsTitleLike)| as real, AtLeastOne(|clusterLinks|));
  }

  /** Every bucket's label can be computed. `extractClusterTitle` runs for each cluster
      while scoring, before the filter, so one first link whose selector does not parse
      throws out of the whole segmenter. */
  predicate LabelsParse(rt: Runtime, doc: Document, buckets: seq<Bucket<string, Link>>) {
    forall i :: 0 <= i < |buckets| ==> Labelled(rt, doc, buckets[i])
  }

  predicate Labelled(rt: Runtime, doc: Document, b: Bucket<string, Link>) {
    ExtractClusterTitle(rt, doc, b.items).Some?
  }

  /** The score of a bucket of the grouping, with its label (read only when every label
      parses). */
  function ScoreBucket(rt: Runtime, doc: Document, total: nat): Bucket<string, Link> -> Cluster {
    (b: Bucket<string, Link>) =>
      Cluster(b.key, b.items, ClusterScore(b.items, total), ExtractClusterTitle(rt, doc, b.items).GetOr(Unnamed))
  }

  /** The filter `c.score > 0.1 && c.links.length >= 3`. */
  predicate IsKept(c: Cluster) { c.score > 0.1 && |c.links| >= MinClusterLinks }

  function ScoreOf(c: Cluster): real { c.score }

  /** Every cluster of the links, scored, in the order of its first link. */
  function ScoredClusters(rt: Runtime, doc: Document, links: seq<Link>): (r: seq<Cluster>)
    ensures |r| == |GroupBy(links, ClusterKey(rt))|
    ensures forall i :: 0 <= i < |r| ==> r[i] == ScoreBucket(rt, doc, |links|)(GroupBy(links, ClusterKey(rt))[i])
  {
    var buckets := GroupBy(links, ClusterKey(rt));
    seq(|buckets|, i requires 0 <= i < |buckets| => ScoreBucket(rt, doc, |links|)(buckets[i]))
  }

  /** The kept clusters, best score first (ties in first-seen order), at most ten. */
  function TopClusters(rt: Runtime, doc: Document, links: seq<Link>): seq<Cluster> {
    Take(SortDesc(Filter(ScoredClusters(rt, doc, links), IsKept), ScoreOf), MaxClusters)
  }

  /** A cluster's links as articles, all stamped with the request's clock. */
  function LinkArticles(rt: Runtime, links: seq<Link>): (r: seq<Article>)
    ensures |r| == |links|
    ensures forall i :: 0 <= i < |links| ==> r[i] == Article(links[i].text, links[i].fullUrl, rt.now)
  {
    seq(|links|, i requires 0 <= i < |links| => Article(links[i].text, links[i].fullUrl, rt.now))
  }

  /** The articles of collected links keep the anchor test: a title of 3 characters or
      more and a link on the page's host. */
  lemma LinkArticlesSpec(rt: Runtime, url: string, links: seq<Link>)
    requires AllCandidates(rt, url, links)
    ensures forall a :: a in LinkArticles(rt, links) ==> |a.title| >= 3 && IsSameHost(rt.resolve, a.link, url)
  {
    forall a | a in LinkArticles(rt, links) ensures |a.title| >= 3 && IsSameHost(rt.resolve, a.link, url) {
      var k :| 0 <= k < |links| && LinkArticles(rt, links)[k] == a;
      assert links[k] in links;
    }
  }

  /** The group of a cluster, labelled by `selectBestTitle`. */
  function ClusterGroup(rt: Runtime, c: Cluster): Group {
    var articles := LinkArticles(rt, c.links);
    Group(SelectBestTitle(rt, c.titleToken, articles), articles)
  }

  function ClusterGroups(rt: Runtime, top: seq<Cluster>): (r: seq<Group>)
    ensures |r| == |top|
    ensures forall i :: 0 <= i < |top| ==> r[i] == ClusterGroup(rt, top[i])
  {
    seq(|top|, i requires 0 <= i < |top| => ClusterGroup(rt, top[i]))
  }

  /** What `segmentByClusters(url, html)` returns; `None` is a throw: `new URL(url)` fails,
      some collected absolute URL does not parse on its own, or the label selector of some
      cluster's first link does not parse. */
  function ClusterSegments(rt: Runtime, url: string, doc: Document): Option<seq<Group>> {
    if rt.resolve(url, None).None? then None
    else
      var links := CandidateLinks(rt, url, doc);
      if !AllParse(rt, links) then None
      else if !LabelsParse(rt, doc, GroupBy(links, ClusterKey(rt))) then None
      else Some(ClusterGroups(rt, TopClusters(rt, doc, links)))
  }

  /** The segmenter throws when the selector built from the `href` of a link that opens its
      cluster does not parse, whether or not that cluster would have been kept. */
  lemma ClusterSelectorThrows(rt: Runtime, url: string, doc: Document, k: nat)
    requires k < |CandidateLinks(rt, url, doc)|
    requires var links := CandidateLinks(rt, url, doc);
      && (forall j :: 0 <= j < k ==> ClusterKey(rt)(links[j]) != ClusterKey(rt)(links[k]))
      && rt.hrefSelector(links[k].href).None?
    ensures ClusterSegments(rt, url, doc).None?
  {
    var links := CandidateLinks(rt, url, doc);
    var key := ClusterKey(rt);
    if rt.resolve(url, None).Some? && AllParse(rt, links) {
      var buckets := GroupBy(links, key);
      GroupByKey(links, key, k);
      var i :| 0 <= i < |buckets| && buckets[i].key == key(links[k]);
      GroupByBucket(links, key, buckets[i]);
      FirstWithKey(links, key, k);
      assert !Labelled(rt, doc, buckets[i]);
    }
  }

  /** The clusters kept are exactly those with at least 3 links: the score test is implied. */
  lemma KeptIffThreeLinks(rt: Runtime, doc: Document, links: seq<Link>)
    ensures forall c :: c in ScoredClusters(rt, doc, links) ==>
      (IsKept(c) <==> |c.links| >= MinClusterLinks)
  {
    var buckets := GroupBy(links, ClusterKey(rt));
    var scored := ScoredClusters(rt, doc, links);
    forall c | c in scored ensures IsKept(c) <==> |c.links| >= MinClusterLinks {
      var i :| 0 <= i < |scored| && scored[i] == c;
      GroupByBucket(links, ClusterKey(rt), buckets[i]);
      assert buckets[i] in buckets;
      ScoreBounds(buckets[i].items, |links|);
    }
  }

  /** The returned clusters: at most ten, best score first, each with at least 3 links, a
      score in [0.2, 1], one key shared by all its links, and links drawn from the input. A
      scored cluster with at least 3 links is left out only when ten were returned, each
      scoring at least as high as it. */
  lemma TopClustersSpec(rt: Runtime, doc: Document, links: seq<Link>)
    ensures var top := TopClusters(rt, doc, links);
      && |top| <= MaxClusters
      && SortedDesc(top, ScoreOf)
      && (forall c :: c in top ==>
           && |c.links| >= MinClusterLinks
           && 0.2 <= c.score <= 1.0
           && c.titleToken == ExtractClusterTitle(rt, doc, c.links).GetOr(Unnamed)
           && (forall l :: l in c.links ==> l in links && ClusterKey(rt)(l) == c.key))
      && forall c :: c in ScoredClusters(rt, doc, links) && |c.links| >= MinClusterLinks && c !in top ==>
           |top| == MaxClusters && forall t :: t in top ==> t.score >= c.score
  {
    TopSelection(Filter(ScoredClusters(rt, doc, links), IsKept), ScoreOf, MaxClusters);
    KeptIffThreeLinks(rt, doc, links);
    var buckets := GroupBy(links, ClusterKey(rt));
    var scored := ScoredClusters(rt, doc, links);
    var kept := Filter(scored, IsKept);
    var sorted := SortDesc(kept, ScoreOf);
    var top := TopClusters(rt, doc, links);
    GroupByShape(links, ClusterKey(rt));
    SortDescMembers(kept, ScoreOf);
    SortedDescTake(sorted, ScoreOf, MaxClusters);
    forall c | c in top
      ensures |c.links| >= MinClusterLinks && 0.2 <= c.score <= 1.0
      ensures c.titleToken == ExtractClusterTitle(rt, doc, c.links).GetOr(Unnamed)
      ensures forall l :: l in c.links ==> l in links && ClusterKey(rt)(l) == c.key
    {
      assert c in sorted;
      assert c in kept;
      var i :| 0 <= i < |scored| && scored[i] == c;
      assert buckets[i] in buckets;
      GroupByBucket(links, ClusterKey(rt), buckets[i]);
      ScoreBounds(buckets[i].items, |links|);
    }
  }

  /** Every group of the cluster segmenter has a non-empty label and at least 3 articles,
      each titled with the trimmed text (3 or more characters) of an anchor whose absolute
      URL is on the page's host; there are at most ten groups, in the order of their
      clusters' scores. */
  lemma ClusterSegmentsSpec(rt: Runtime, url: string, doc: Document)
    requires ClusterSegments(rt, url, doc).Some?
    ensures var gs := ClusterSegments(rt, url, doc).value;
      && |gs| <= MaxClusters
      && |gs| == |TopClusters(rt, doc, CandidateLinks(rt, url, doc))|
      && forall g :: g in gs ==>
           && g.titleToken != []
           && |g.articles| >= MinClusterLinks
           && forall a :: a in g.articles ==> |a.title| >= 3 && IsSameHost(rt.resolve, a.link, url)
  {
    var links := CandidateLinks(rt, url, doc);
    var top := TopClusters(rt, doc, links);
    var gs := ClusterSegments(rt, url, doc).value;
    TopClustersSpec(rt, doc, links);
    CandidateLinksSpec(rt, url, doc);
    forall g | g in gs
      ensures g.titleToken != []
      ensures |g.articles| >= MinClusterLinks
      ensures forall a :: a in g.articles ==> |a.title| >= 3 && IsSameHost(rt.resolve, a.link, url)
    {
      var i :| 0 <= i < |gs| && gs[i] == g;
      assert top[i] in top;
      assert top[i].links[0] in links;
      LinkArticlesSpec(rt, url, top[i].links);
    }
  }

  /** The `links.forEach` that files every link into the `clusters` map under its key;
      `None` when re-parsing some link's absolute URL throws. */
  method FileIntoClusters(rt: Runtime, links: seq<Link>) returns (r: Option<seq<Bucket<string, Link>>>)
    ensures r.None? <==> !AllParse(rt, links)
    ensures r.Some? ==> r.value == GroupBy(links, ClusterKey(rt))
  {
    var order: seq<string> := [];
    var clusters: map<string, seq<Link>> := map[];
    for i := 0 to |links|
      invariant ClusterState(rt, links[..i], order, clusters)
    {
      PrefixSnoc(links, i);
      var ok;
      ok, order, clusters := FileByCluster(rt, links[..i], links[i], order, clusters);
      if !ok {
        assert links[i] in links;
        return None;
      }
    }
    assert links[..|links|] == links;
    var buckets := Entries(links, ClusterKey(rt), order, clusters);
    r := Some(buckets);
  }

  /** The links `done` all re-parsed and are filed in the map. */
  ghost predicate ClusterState(rt: Runtime, done: seq<Link>, order: seq<string>, clusters: map<string, seq<Link>>) {
    AllParse(rt, done) && GroupState(done, ClusterKey(rt), order, clusters)
  }

  /** One link: its absolute URL is parsed again (`ok` is false when that throws) and the
      link is pushed under `${container}-${pathPrefix}`. */
  method FileByCluster(rt: Runtime, ghost done: seq<Link>, l: Link, order: seq<string>, clusters: map<string, seq<Link>>)
    returns (ok: bool, order': seq<string>, clusters': map<string, seq<Link>>)
    requires ClusterState(rt, done, order, clusters)
    ensures ok <==> rt.resolve(l.fullUrl, None).Some?
    ensures ok ==> ClusterState(rt, done + [l], order', clusters')
  {
    var u := rt.resolve(l.fullUrl, None);
    if u.None? {
      return false, order, clusters;
    }
    ok := true;
    var pathPrefix := PathPrefix(u.value.pathname);
    var clusterKey := l.container + "-" + pathPrefix;
    order', clusters' := PushInto(done, ClusterKey(rt), clusterKey, l, order, clusters);
    assert forall x :: x in done + [l] ==> x in done || x == l;
  }

  /** `segmentByClusters(url, html)` as written: the links are collected anchor by anchor,
      filed into a `Map` by cluster key, scored, filtered, sorted and cut to ten. */
  method SegmentByClusters(rt: Runtime, url: string, doc: Document) returns (r: Option<seq<Group>>)
    ensures r == ClusterSegments(rt, url, doc)
  {
    if rt.resolve(url, None).None? {
      return None;
    }
    var links := CollectCandidates(rt, url, doc);
    var clusters := FileIntoClusters(rt, links);
    if clusters.None? {
      return None;
    }
    var buckets := clusters.value;
    // the labels are computed inside the scoring `map`: one throw ends it
    if !LabelsParse(rt, doc, buckets) {
      return None;
    }
    var scoredClusters := seq(|buckets|, j requires 0 <= j < |buckets| => ScoreBucket(rt, doc, |links|)(buckets[j]));
    assert scoredClusters == ScoredClusters(rt, doc, links);
    var topClusters := Take(SortDesc(Filter(scoredClusters, IsKept), ScoreOf), MaxClusters);
    r := Some(ClusterGroups(rt, topClusters));
  }
}
