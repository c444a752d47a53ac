/** `/webpage-build-rss` (server/dist/modules/feeds/routes.js:2247-2326): the chosen articles
    are normalized to absolute URLs, kept only when on the page's host, deduplicated by link
    and cut to fifty, and a feed holding them is created. The user lookup and the database
    inserts are parameters. */
module BuildRss {
  import opened Wrappers
  import opened Collections
  import opened Urls
  import opened Env
  import opened Patterns
  import opened Articles

  /** At most this many articles make the feed. */
  const MaxFeedArticles: nat := 50

  /** The feed title keeps at most this many characters. */
  const MaxFeedTitle: nat := 180

  /** An item title keeps at most this many characters. */
  const MaxItemTitle: nat := 300

  /** The item title used when an article has none. */
  const Untitled: string := "无标题"

  /** Why no feed is created: the page URL does not parse (a server error), no user is
      known or the user does not exist (401), or no article survives the filter (400). */
  datatype BuildError = BadPageUrl | InvalidUser | NoValidArticles

  datatype Result<T> = Ok(value: T) | Err(error: BuildError)

  /** A stored item: its title, absolute link and publication date. */
  datatype Item = Item(title: string, link: string, published: string)

  /** The answer: the feed's title and URL and the items stored under it. */
  datatype Feed = Feed(title: string, url: string, items: seq<Item>)

  /** `titleToken.replace(/[\n\r\t]+/g, ' ').slice(0, 180)`. */
  function SafeTitle(titleToken: string): (r: string)
    ensures |r| <= MaxFeedTitle
    ensures forall i :: 0 <= i < |r| ==> r[i] !in "\n\r\t"
  {
    Take(CollapseBreaks(titleToken), MaxFeedTitle)
  }

  /** `{ ...a, link: new URL(a.link).href }`, or nothing when the link does not parse. */
  function Normalized(rt: Runtime): Article -> Option<Article> {
    (a: Article) =>
      match rt.resolve(a.link, None)
      case None => None
      case Some(u) => Some(a.(link := u.href))
  }

  /** `new URL(a.link).hostname === host`, false when the link does not parse. */
  function OnHost(rt: Runtime, host: string): Article -> bool {
    (a: Article) =>
      match rt.resolve(a.link, None)
      case None => false
      case Some(u) => u.hostname == host
  }

  /** The filtered articles: normalized, on the host, the first of every link, at most fifty. */
  function FilteredArticles(rt: Runtime, host: string, articles: seq<Article>): seq<Article> {
    Take(DedupByLink(Filter(FilterMap(articles, Normalized(rt)), OnHost(rt, host))), MaxFeedArticles)
  }

  /** The filter is sound: at most fifty articles with pairwise distinct links, each the
      normalized form of a submitted article with the same title and date, whose
      normalized link parses on the page's host. */
  lemma FilteredSound(rt: Runtime, host: string, articles: seq<Article>)
    ensures var r := FilteredArticles(rt, host, articles);
      && |r| <= MaxFeedArticles
      && DistinctLinks(r)
      && forall a :: a in r ==>
           && OnHost(rt, host)(a)
           && exists k :: 0 <= k < |articles| && Normalized(rt)(articles[k]) == Some(a)
  {
    var normalized := FilterMap(articles, Normalized(rt));
    var deduped := DedupByLink(Filter(normalized, OnHost(rt, host)));
    var r := FilteredArticles(rt, host, articles);
    forall a | a in r
      ensures OnHost(rt, host)(a)
      ensures exists k :: 0 <= k < |articles| && Normalized(rt)(articles[k]) == Some(a)
    {
      var i :| 0 <= i < |r| && r[i] == a;
      assert deduped[i] == a;
      FilterMapSource(articles, Normalized(rt), a);
    }
  }

  /** The filter is complete below the cap: when fewer than fifty articles are kept, the
      link of every submitted article that normalizes onto the page's host is among them. */
  lemma FilteredComplete(rt: Runtime, host: string, articles: seq<Article>, k: nat)
    requires k < |articles|
    requires Normalized(rt)(articles[k]).Some? && OnHost(rt, host)(Normalized(rt)(articles[k]).value)
    requires |FilteredArticles(rt, host, articles)| < MaxFeedArticles
    ensures Normalized(rt)(articles[k]).value.link in LinkSet(FilteredArticles(rt, host, articles))
  {
    var a := Normalized(rt)(articles[k]).value;
    var kept := Filter(FilterMap(articles, Normalized(rt)), OnHost(rt, host));
    FilterMapComplete(articles, Normalized(rt), k);
    assert a in kept;
    assert a.link in LinkSet(kept);
  }

  /** A submitted link already in absolute form on the host is never dropped below the cap,
      provided the parser gives an absolute URL back unchanged. */
  lemma AbsoluteLinkKept(rt: Runtime, host: string, articles: seq<Article>, k: nat)
    requires k < |articles|
    requires rt.resolve(articles[k].link, None).Some?
    requires var u := rt.resolve(articles[k].link, None).value;
      u.href == articles[k].link && u.hostname == host
    requires |FilteredArticles(rt, host, articles)| < MaxFeedArticles
    ensures articles[k].link in LinkSet(FilteredArticles(rt, host, articles))
  {
    assert Normalized(rt)(articles[k]) == Some(articles[k]);
    FilteredComplete(rt, host, articles, k);
  }

  /** `a.title?.slice(0, 300) || '无标题'`. */
  function ItemTitle(title: string): (r: string)
    ensures r != [] && |r| <= MaxItemTitle
    ensures title == [] ==> r == Untitled
    ensures title != [] ==> |r| <= |title| && r == title[..|r|]
  {
    var cut := Take(title, MaxItemTitle);
    if cut == [] then Untitled else cut
  }

  /** `a.pubDate ? new Date(a.pubDate) : new Date()`: an absent or empty date is the clock's. */
  function Published(rt: Runtime, a: Article): string {
    if a.pubDate != [] then a.pubDate else rt.now
  }

  function ItemLink(it: Item): string { it.link }

  function ItemOf(rt: Runtime, a: Article): Item {
    Item(ItemTitle(a.title), a.link, Published(rt, a))
  }

  /** The item of every article, in order. */
  function ItemsOf(rt: Runtime, articles: seq<Article>): (r: seq<Item>)
    ensures |r| == |articles|
    ensures forall i :: 0 <= i < |articles| ==> r[i] == ItemOf(rt, articles[i])
  {
    if articles == [] then [] else ItemsOf(rt, articles[..|articles| - 1]) + [ItemOf(rt, articles[|articles| - 1])]
  }

  /** `!actualUserId`: no user id, or the empty one, which JavaScript reads as false. */
  predicate MissingUser(userId: Option<string>) {
    userId.None? || userId.value == []
  }

  /** `/webpage-build-rss` for a request with page `url`, label `titleToken` and the chosen
      `articles`; `userId` is `actualUserId`, the request's user or else the session's,
      `userExists` what the user lookup answers and `inserted` which item inserts the
      database accepts (a failed insert is skipped). */
  function BuildFeed(rt: Runtime, url: string, titleToken: string, articles: seq<Article>,
                     userId: Option<string>, userExists: bool, inserted: Item -> bool): Result<Feed> {
    match rt.resolve(url, None)
    case None => Err(BadPageUrl)
    case Some(page) =>
      if MissingUser(userId) || !userExists then Err(InvalidUser)
      else
        var filtered := FilteredArticles(rt, page.hostname, articles);
        if filtered == [] then Err(NoValidArticles)
        else
          Ok(Feed(SafeTitle(titleToken), url, Filter(ItemsOf(rt, filtered), inserted)))
  }

  /** A feed is created exactly when the page URL parses, the user exists and some article
      survives the filter; its title has no line break and at most 180 characters, and it
      holds at most fifty items, each with a non-empty title, whose links are distinct and
      on the page's host. */
  lemma BuildFeedSpec(rt: Runtime, url: string, titleToken: string, articles: seq<Article>,
                      userId: Option<string>, userExists: bool, inserted: Item -> bool)
    ensures var r := BuildFeed(rt, url, titleToken, articles, userId, userExists, inserted);
      && (r.Err? && r.error == BadPageUrl <==> rt.resolve(url, None).None?)
      && (r.Err? && r.error == InvalidUser <==> rt.resolve(url, None).Some? && (MissingUser(userId) || !userExists))
      && (r.Err? && r.error == NoValidArticles <==>
            rt.resolve(url, None).Some? && !MissingUser(userId) && userExists
            && FilteredArticles(rt, rt.resolve(url, None).value.hostname, articles) == [])
      && (r.Ok? ==>
            var host := rt.resolve(url, None).value.hostname;
            && r.value.title == SafeTitle(titleToken)
            && r.value.url == url
            && |r.value.items| <= MaxFeedArticles
            && (forall i, j :: 0 <= i < j < |r.value.items| ==> r.value.items[i].link != r.value.items[j].link)
            && forall it :: it in r.value.items ==>
                 && it.title != [] && |it.title| <= MaxItemTitle
                 && inserted(it)
                 && exists a :: a in FilteredArticles(rt, host, articles) && OnHost(rt, host)(a) && a.link == it.link)
  {
    if rt.resolve(url, None).Some? && !MissingUser(userId) && userExists {
      var host := rt.resolve(url, None).value.hostname;
      FilteredSound(rt, host, articles);
      var filtered := FilteredArticles(rt, host, articles);
      FeedItemsSpec(rt, filtered, inserted);
    }
  }

  /** The items kept from some articles with distinct links have distinct links, each the
      link of one of the articles. */
  lemma FeedItemsSpec(rt: Runtime, arts: seq<Article>, inserted: Item -> bool)
    requires DistinctLinks(arts)
    ensures var items := Filter(ItemsOf(rt, arts), inserted);
      && (forall i, j :: 0 <= i < j < |items| ==> items[i].link != items[j].link)
      && forall it :: it in items ==> exists a :: a in arts && a.link == it.link
  {
    var items := ItemsOf(rt, arts);
    FilterDistinct(items, inserted, ItemLink);
    forall it | it in Filter(items, inserted)
      ensures exists a :: a in arts && a.link == it.link
    {
      var i :| 0 <= i < |items| && items[i] == it;
      assert arts[i] in arts;
    }
  }

  /** `for (const a of filtered) { try { await prisma.item.create(...); created++ } catch {} }`:
      the items are inserted in order and the accepted ones counted. */
  method CreateItems(rt: Runtime, filtered: seq<Article>, inserted: Item -> bool)
    returns (items: seq<Item>, created: nat)
    ensures items == Filter(ItemsOf(rt, filtered), inserted)
    ensures created == |items| && created <= |filtered|
  {
    items := [];
    created := 0;
    for j := 0 to |filtered|
      invariant items == Filter(ItemsOf(rt, filtered[..j]), inserted)
      invariant created == |items|
    {
      var item := Item(ItemTitle(filtered[j].title), filtered[j].link, Published(rt, filtered[j]));
      PrefixSnoc(filtered, j);
      assert ItemsOf(rt, filtered[..j + 1]) == ItemsOf(rt, filtered[..j]) + [item];
      FilterSnoc(ItemsOf(rt, filtered[..j]), item, inserted);
      if inserted(item) {
        items := items + [item];
        created := created + 1;
      }
    }
    assert filtered[..|filtered|] == filtered;
  }

  /** The handler as written: the host, the title, the user checks, the filter chain, the
      empty check, and the inserts. */
  method BuildRssFeed(rt: Runtime, url: string, titleToken: string, articles: seq<Article>,
                      userId: Option<string>, userExists: bool, inserted: Item -> bool)
    returns (r: Result<Feed>)
    ensures r == BuildFeed(rt, url, titleToken, articles, userId, userExists, inserted)
  {
    var page := rt.resolve(url, None);
    if page.None? {
      return Err(BadPageUrl);
    }
    var host := page.value.hostname;
    var safeTitle := SafeTitle(titleToken);
    if userId.None? || userId.value == [] || !userExists {
      return Err(InvalidUser);
    }
    var filtered := FilteredArticles(rt, host, articles);
    if |filtered| == 0 {
      return Err(NoValidArticles);
    }
    var items, created := CreateItems(rt, filtered, inserted);
    r := Ok(Feed(safeTitle, url, items));
  }
}
