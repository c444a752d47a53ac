/** The path-pattern segmenter `segmentByPathPatterns` (server/dist/modules/feeds/routes.js:330-380):
    same-host anchors whose URL has at least two path segments are grouped by `/seg1/seg2`; a
    pattern with an anchor inside navigation chrome is dropped, and the eight largest patterns
    of at least three links become article groups of at most fifty. */
module PathGroups {
  import opened Wrappers
  import opened Text
  import opened Collections
  import opened Urls
  import opened Env
  import opened Dom
  import opened Patterns
  import opened Articles
  import opened Titles
  import opened Clusters

  /** At most this many patterns are returned. */
  const MaxPatterns: nat := 8

  /** A pattern needs this many links. */
  const MinPatternLinks: nat := 3

  /** At most this many articles per pattern. */
  const MaxPatternArticles: nat := 50

  /** The non-empty path segments of a link's re-parsed absolute URL. */
  function LinkSegments(rt: Runtime, l: Link): (r: seq<string>)
    ensures forall k :: 0 <= k < |r| ==> r[k] != [] && '/' !in r[k]
  {
    match rt.resolve(l.fullUrl, None)
    case None => []
    case Some(u) => PathSegments(u.pathname)
  }

  /** `pathParts.length >= 2`. */
  function HasPattern(rt: Runtime): Link -> bool {
    (l: Link) => |LinkSegments(rt, l)| >= 2
  }

  /** `/${pathParts[0]}/${pathParts[1]}`. */
  function PatternKey(rt: Runtime): Link -> string {
    (l: Link) =>
      var parts := LinkSegments(rt, l);
      if |parts| >= 2 then "/" + parts[0] + "/" + parts[1] else []
  }

  /** The pattern buckets: the links with two segments or more, filed by pattern. */
  function PatternBuckets(rt: Runtime, links: seq<Link>): seq<Bucket<string, Link>> {
    GroupBy(Filter(links, HasPattern(rt)), PatternKey(rt))
  }

  /** The selector `[class]`: the element has a class attribute. */
  predicate HasClassAttr(n: Node) { n.cls.Some? }

  /** `$('a[href="X"]')`: the anchors whose `href` is exactly `X`, in document order. */
  function AnchorsWithHref(doc: Document, href: string): (r: seq<nat>)
    ensures forall k :: 0 <= k < |r| ==> r[k] < |doc|
  {
    Matching(doc, (n: Node) => n.tag == "a" && n.href == Some(href))
  }

  /** `.closest('[class]')` over several anchors keeps their closest classed elements in
      anchor order; this is the first of them. */
  function FirstClassed(doc: Document, anchors: seq<nat>): (r: Option<nat>)
    requires forall k :: 0 <= k < |anchors| ==> anchors[k] < |doc|
    ensures r.Some? ==> r.value < |doc| && HasClassAttr(doc[r.value])
  {
    if anchors == [] then None
    else
      match Closest(doc, anchors[0], HasClassAttr)
      case Some(c) => Some(c)
      case None => FirstClassed(doc, anchors[1..])
  }

  /** `$('a[href="X"]').closest('[class]').attr('class') || ''`. */
  function ClassNear(doc: Document, href: string): string {
    match FirstClassed(doc, AnchorsWithHref(doc, href))
    case None => []
    case Some(c) => AttrOrEmpty(doc[c].cls)
  }

  /** The selector `a[href="X"]` built from the link's raw `href` parses. */
  predicate SelectorParses(rt: Runtime, l: Link) { rt.hrefSelector(l.href).Some? }

  /** The anchors the link's selector finds sit in navigation, menu, header, footer,
      sidebar, breadcrumb or pagination chrome. */
  predicate IsChromeLink(rt: Runtime, doc: Document, l: Link) {
    match rt.hrefSelector(l.href)
    case None => false
    case Some(wanted) => HasNavClass(ClassNear(doc, wanted))
  }

  function SelectorParsesFn(rt: Runtime): Link -> bool {
    (l: Link) => SelectorParses(rt, l)
  }

  function ChromeFn(rt: Runtime, doc: Document): Link -> bool {
    (l: Link) => IsChromeLink(rt, doc, l)
  }

  /** `links.some(link => ...)` over a pattern's links, in order: `Some(true)` at the first
      chrome link, `None` when the selector of a link reached before it throws. */
  function NavScan(rt: Runtime, doc: Document, links: seq<Link>): Option<bool> {
    SomeOrThrow(links, SelectorParsesFn(rt), ChromeFn(rt, doc))
  }

  /** The scan answers `false` exactly when every link's selector parses and no link is
      chrome. */
  lemma NavScanClean(rt: Runtime, doc: Document, links: seq<Link>)
    ensures NavScan(rt, doc, links) == Some(false) <==>
      forall l :: l in links ==> SelectorParses(rt, l) && !IsChromeLink(rt, doc, l)
  {
    SomeOrThrowFalse(links, SelectorParsesFn(rt), ChromeFn(rt, doc));
    assert forall l :: l in links ==> exists j :: 0 <= j < |links| && links[j] == l;
  }

  /** The scan throws exactly when some link's selector fails before any chrome link is
      met. */
  lemma NavScanThrows(rt: Runtime, doc: Document, links: seq<Link>)
    ensures NavScan(rt, doc, links).None? <==>
      exists k :: 0 <= k < |links| && !SelectorParses(rt, links[k])
        && forall j :: 0 <= j < k ==> SelectorParses(rt, links[j]) && !IsChromeLink(rt, doc, links[j])
  {
    SomeOrThrowNone(links, SelectorParsesFn(rt), ChromeFn(rt, doc));
  }

  /** The filter's predicate can be evaluated on the pattern without a throw. */
  predicate Scanned(rt: Runtime, doc: Document, b: Bucket<string, Link>) {
    NavScan(rt, doc, b.items).Some?
  }

  /** `Array.filter` evaluates `some` on every pattern, so one throw ends the segmenter. */
  predicate ScansParse(rt: Runtime, doc: Document, buckets: seq<Bucket<string, Link>>) {
    forall i :: 0 <= i < |buckets| ==> Scanned(rt, doc, buckets[i])
  }

  /** The filter `!hasNavClass && links.length >= 3`: one chrome link vetoes the pattern. */
  predicate IsKeptPattern(rt: Runtime, doc: Document, b: Bucket<string, Link>) {
    NavScan(rt, doc, b.items) == Some(false) && |b.items| >= MinPatternLinks
  }

  function KeptPatternFn(rt: Runtime, doc: Document): Bucket<string, Link> -> bool {
    (b: Bucket<string, Link>) => IsKeptPattern(rt, doc, b)
  }

  function LinkCount(b: Bucket<string, Link>): real { |b.items| as real }

  /** The kept patterns, most links first (ties in first-seen order), at most eight. */
  function TopPatterns(rt: Runtime, doc: Document, links: seq<Link>): seq<Bucket<string, Link>> {
    Take(SortDesc(Filter(PatternBuckets(rt, links), KeptPatternFn(rt, doc)), LinkCount), MaxPatterns)
  }

  /** The group of a pattern: its first fifty links as articles, labelled from the path. */
  function PatternGroup(rt: Runtime, b: Bucket<string, Link>): Group {
    var articles := LinkArticles(rt, Take(b.items, MaxPatternArticles));
    Group(SelectBestTitle(rt, ConvertPathToTitle(b.key), articles), articles)
  }

  function PatternGroups(rt: Runtime, top: seq<Bucket<string, Link>>): (r: seq<Group>)
    ensures |r| == |top|
    ensures forall i :: 0 <= i < |top| ==> r[i] == PatternGroup(rt, top[i])
  {
    seq(|top|, i requires 0 <= i < |top| => PatternGroup(rt, top[i]))
  }

  /** What `segmentByPathPatterns(url, html)` returns; `None` is a throw: `new URL(url)`
      fails, some collected absolute URL does not parse on its own, or the navigation scan
      of some pattern meets a selector that does not parse. */
  function PatternSegments(rt: Runtime, url: string, doc: Document): Option<seq<Group>> {
    if rt.resolve(url, None).None? then None
    else
      var links := CandidateLinks(rt, url, doc);
      if !AllParse(rt, links) then None
      else if !ScansParse(rt, doc, PatternBuckets(rt, links)) then None
      else Some(PatternGroups(rt, TopPatterns(rt, doc, links)))
  }

  /** The scan always looks up a pattern's first link, so a pattern whose first link's
      selector does not parse makes the segmenter throw, however small the pattern. */
  lemma PatternSelectorThrows(rt: Runtime, url: string, doc: Document, b: Bucket<string, Link>)
    requires b in PatternBuckets(rt, CandidateLinks(rt, url, doc))
    requires b.items != [] && !SelectorParses(rt, b.items[0])
    ensures PatternSegments(rt, url, doc).None?
  {
    var buckets := PatternBuckets(rt, CandidateLinks(rt, url, doc));
    var i :| 0 <= i < |buckets| && buckets[i] == b;
    assert !Scanned(rt, doc, buckets[i]);
  }

  /** A pattern passes the filter exactly when it has at least 3 links, every one of whose
      selectors parses and none of which is chrome. */
  lemma KeptPatternIff(rt: Runtime, doc: Document, b: Bucket<string, Link>)
    ensures IsKeptPattern(rt, doc, b) <==>
      && |b.items| >= MinPatternLinks
      && forall l :: l in b.items ==> SelectorParses(rt, l) && !IsChromeLink(rt, doc, l)
  {
    NavScanClean(rt, doc, b.items);
  }

  /** The links of a pattern bucket were collected, have two path segments or more, and
      the first two make the bucket's key. */
  lemma PatternBucketLinks(rt: Runtime, links: seq<Link>, b: Bucket<string, Link>)
    requires b in PatternBuckets(rt, links)
    ensures forall l :: l in b.items ==>
      && l in links
      && var parts := LinkSegments(rt, l);
         |parts| >= 2 && b.key == "/" + parts[0] + "/" + parts[1]
  {
    var withPattern := Filter(links, HasPattern(rt));
    GroupByBucket(withPattern, PatternKey(rt), b);
    forall l | l in b.items
      ensures l in links
      ensures var parts := LinkSegments(rt, l);
              |parts| >= 2 && b.key == "/" + parts[0] + "/" + parts[1]
    {
      assert l in withPattern && PatternKey(rt)(l) == b.key;
      assert HasPattern(rt)(l);
    }
  }

  /** The kept patterns: at most eight, most links first; each has at least 3 links, none of
      them chrome and every one with a parsing selector, and every link has two path
      segments or more whose first two make the pattern's key. A pattern that passes the
      filter is left out only when eight were returned, each with at least as many links. */
  lemma TopPatternsSpec(rt: Runtime, doc: Document, links: seq<Link>)
    ensures var top := TopPatterns(rt, doc, links);
      && |top| <= MaxPatterns
      && SortedDesc(top, LinkCount)
      && (forall b :: b in top ==>
           && |b.items| >= MinPatternLinks
           && forall l :: l in b.items ==>
                && l in links && SelectorParses(rt, l) && !IsChromeLink(rt, doc, l)
                && var parts := LinkSegments(rt, l);
                   |parts| >= 2 && b.key == "/" + parts[0] + "/" + parts[1])
      && forall b :: b in PatternBuckets(rt, links) && IsKeptPattern(rt, doc, b) && b !in top ==>
           |top| == MaxPatterns && forall t :: t in top ==> |t.items| >= |b.items|
  {
    var withPattern := Filter(links, HasPattern(rt));
    TopBuckets(withPattern, PatternKey(rt), KeptPatternFn(rt, doc), LinkCount, MaxPatterns);
    var top := TopPatterns(rt, doc, links);
    forall b | b in top
      ensures |b.items| >= MinPatternLinks
      ensures forall l :: l in b.items ==>
                && l in links && SelectorParses(rt, l) && !IsChromeLink(rt, doc, l)
                && var parts := LinkSegments(rt, l);
                   |parts| >= 2 && b.key == "/" + parts[0] + "/" + parts[1]
    {
      assert KeptPatternFn(rt, doc)(b);
      KeptPatternIff(rt, doc, b);
      PatternBucketLinks(rt, links, b);
    }
    forall b | b in PatternBuckets(rt, links) && IsKeptPattern(rt, doc, b) && b !in top
      ensures |top| == MaxPatterns && forall t :: t in top ==> |t.items| >= |b.items|
    {
      assert KeptPatternFn(rt, doc)(b);
    }
  }

  /** Every group of the path-pattern segmenter has a non-empty label and 3 to 50 articles,
      each titled with the trimmed text (3 or more characters) of an anchor whose absolute
      URL is on the page's host; there are at most eight groups. */
  lemma PatternSegmentsSpec(rt: Runtime, url: string, doc: Document)
    requires PatternSegments(rt, url, doc).Some?
    ensures var gs := PatternSegments(rt, url, doc).value;
      && |gs| <= MaxPatterns
      && forall g :: g in gs ==>
           && g.titleToken != []
           && MinPatternLinks <= |g.articles| <= MaxPatternArticles
           && forall a :: a in g.articles ==> |a.title| >= 3 && IsSameHost(rt.resolve, a.link, url)
  {
    var links := CandidateLinks(rt, url, doc);
    var top := TopPatterns(rt, doc, links);
    var gs := PatternSegments(rt, url, doc).value;
    TopPatternsSpec(rt, doc, links);
    CandidateLinksSpec(rt, url, doc);
    forall g | g in gs
      ensures g.titleToken != []
      ensures MinPatternLinks <= |g.articles| <= MaxPatternArticles
      ensures forall a :: a in g.articles ==> |a.title| >= 3 && IsSameHost(rt.resolve, a.link, url)
    {
      var i :| 0 <= i < |gs| && gs[i] == g;
      assert top[i] in top;
      PatternGroupSpec(rt, url, links, top[i]);
    }
  }

  /** The group of one kept pattern has 3 to 50 articles, drawn from collected links. */
  lemma PatternGroupSpec(rt: Runtime, url: string, links: seq<Link>, b: Bucket<string, Link>)
    requires AllCandidates(rt, url, links)
    requires |b.items| >= MinPatternLinks && forall l :: l in b.items ==> l in links
    ensures var g := PatternGroup(rt, b);
      && MinPatternLinks <= |g.articles| <= MaxPatternArticles
      && forall a :: a in g.articles ==> |a.title| >= 3 && IsSameHost(rt.resolve, a.link, url)
  {
    var shown := Take(b.items, MaxPatternArticles);
    assert AllCandidates(rt, url, shown) by {
      forall l | l in shown ensures l in links {
        var k :| 0 <= k < |shown| && shown[k] == l;
        assert b.items[k] == l;
      }
    }
    LinkArticlesSpec(rt, url, shown);
  }

  /** One collected link: its absolute URL is parsed again (`ok` is false when that throws)
      and, with two path segments or more, the link is pushed under its pattern. */
  method FileByPattern(rt: Runtime, ghost links: seq<Link>, l: Link, order: seq<string>, pathPatterns: map<string, seq<Link>>)
    returns (ok: bool, order': seq<string>, pathPatterns': map<string, seq<Link>>)
    requires GroupState(Filter(links, HasPattern(rt)), PatternKey(rt), order, pathPatterns)
    ensures ok <==> rt.resolve(l.fullUrl, None).Some?
    ensures ok ==> GroupState(Filter(links + [l], HasPattern(rt)), PatternKey(rt), order', pathPatterns')
  {
    var urlObj := rt.resolve(l.fullUrl, None);
    if urlObj.None? {
      return false, order, pathPatterns;
    }
    ok := true;
    FilterSnoc(links, l, HasPattern(rt));
    var pathParts := PathSegments(urlObj.value.pathname);
    if |pathParts| >= 2 {
      var pattern := "/" + pathParts[0] + "/" + pathParts[1];
      order', pathPatterns' := PushInto(Filter(links, HasPattern(rt)), PatternKey(rt), pattern, l, order, pathPatterns);
    } else {
      order', pathPatterns' := order, pathPatterns;
    }
  }

  /** The state of the pass after the first `j` anchors: `links` were collected and all
      re-parse, and the map holds those with a pattern. */
  ghost predicate PassState(rt: Runtime, cand: nat -> Option<Link>, anchors: seq<nat>, j: nat,
                            links: seq<Link>, order: seq<string>, pathPatterns: map<string, seq<Link>>)
    requires j <= |anchors|
  {
    && links == FilterMap(anchors[..j], cand)
    && AllParse(rt, links)
    && GroupState(Filter(links, HasPattern(rt)), PatternKey(rt), order, pathPatterns)
  }

  /** The pass over anchor `j`: its link, if it collects one, is re-parsed and filed; `ok`
      is false when the re-parse throws. */
  method FileAnchor(rt: Runtime, cand: nat -> Option<Link>, anchors: seq<nat>, j: nat,
                    ghost links: seq<Link>, order: seq<string>, pathPatterns: map<string, seq<Link>>)
    returns (ok: bool, ghost links': seq<Link>, order': seq<string>, pathPatterns': map<string, seq<Link>>)
    requires j < |anchors| && PassState(rt, cand, anchors, j, links, order, pathPatterns)
    ensures !ok ==> !AllParse(rt, FilterMap(anchors, cand))
    ensures ok ==> PassState(rt, cand, anchors, j + 1, links', order', pathPatterns')
  {
    ghost var next := FilterMap(anchors[..j + 1], cand);
    links' := next;
    PrefixSnoc(anchors, j);
    FilterMapSnoc(anchors[..j], anchors[j], cand);
    var link := cand(anchors[j]);
    if link.None? {
      assert next == links;
      return true, links, order, pathPatterns;
    }
    assert next == links + [link.value];
    ok, order', pathPatterns' := FileByPattern(rt, links, link.value, order, pathPatterns);
    if !ok {
      assert link.value in next;
      PrefixLinkThrows(rt, cand, anchors, j + 1, link.value);
      return;
    }
    assert AllParse(rt, links') by {
      assert forall l :: l in links' ==> l in links || l == link.value;
    }
  }

  /** The pass over the anchors of `segmentByPathPatterns`: every link `cand` collects is
      re-parsed and filed under its pattern; `ok` is false when some re-parse throws. */
  method FilePatterns(rt: Runtime, cand: nat -> Option<Link>, anchors: seq<nat>)
    returns (ok: bool, ghost links: seq<Link>, order: seq<string>, pathPatterns: map<string, seq<Link>>)
    ensures ok <==> AllParse(rt, FilterMap(anchors, cand))
    ensures ok ==> links == FilterMap(anchors, cand)
    ensures ok ==> GroupState(Filter(links, HasPattern(rt)), PatternKey(rt), order, pathPatterns)
  {
    links, order, pathPatterns := [], [], map[];
    for j := 0 to |anchors|
      invariant PassState(rt, cand, anchors, j, links, order, pathPatterns)
    {
      ok, links, order, pathPatterns := FileAnchor(rt, cand, anchors, j, links, order, pathPatterns);
      if !ok {
        return;
      }
    }
    assert anchors[..|anchors|] == anchors;
    ok := true;
  }

  /** `segmentByPathPatterns(url, html)` as written: the page URL is parsed, the anchors are
      filed by pattern, and the patterns are filtered, sorted and cut. */
  method SegmentByPathPatterns(rt: Runtime, url: string, doc: Document) returns (r: Option<seq<Group>>)
    ensures r == PatternSegments(rt, url, doc)
  {
    if rt.resolve(url, None).None? {
      return None;
    }
    var ok, links, order, pathPatterns := FilePatterns(rt, CandidateFn(rt, url, doc), Matching(doc, IsLink));
    if !ok {
      return None;
    }
    var buckets := Entries(Filter(links, HasPattern(rt)), PatternKey(rt), order, pathPatterns);
    // the filter runs the navigation scan on every pattern: one throw ends it
    if !ScansParse(rt, doc, buckets) {
      return None;
    }
    var filteredPatterns := Take(SortDesc(Filter(buckets, KeptPatternFn(rt, doc)), LinkCount), MaxPatterns);
    r := Some(PatternGroups(rt, filteredPatterns));
  }

  /** A link collected from the first anchors that does not re-parse makes the whole
      collection fail the re-parse. */
  lemma PrefixLinkThrows(rt: Runtime, cand: nat -> Option<Link>, anchors: seq<nat>, n: nat, l: Link)
    requires n <= |anchors|
    requires l in FilterMap(anchors[..n], cand)
    requires rt.resolve(l.fullUrl, None).None?
    ensures !AllParse(rt, FilterMap(anchors, cand))
  {
    FilterMapSource(anchors[..n], cand, l);
    var k :| 0 <= k < n && cand(anchors[..n][k]) == Some(l);
    assert anchors[..n][k] == anchors[k];
    FilterMapComplete(anchors, cand, k);
  }
}
