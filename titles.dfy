/** Title inference for groups and pages (server/dist/modules/feeds/routes.js:207-267,
    406-519). */
module Titles {
  import opened Wrappers
  import opened Text
  import opened Collections
  import opened Urls
  import opened Env
  import opened Dom
  import opened Patterns
  import opened Articles

  /** The label of a group nothing better was found for. */
  const Unnamed: string := "未命名分组"

  function Id(w: string): string { w }

  function BucketSize(b: Bucket<string, string>): real { |b.items| as real }

  /** How often `w` occurs in `xs`: the count a `Map` keyed by the strings holds for it. */
  function Occurrences(xs: seq<string>, w: string): nat {
    |ItemsWithKey(xs, Id, w)|
  }

  function Keys(bs: seq<Bucket<string, string>>): (r: seq<string>)
    ensures |r| == |bs|
    ensures forall i :: 0 <= i < |bs| ==> r[i] == bs[i].key
  {
    seq(|bs|, i requires 0 <= i < |bs| => bs[i].key)
  }

  // ---------------------------------------------------------------------------
  // findCommonKeywords (routes.js:487-505)

  /** The words of one title: runs of CJK letters and ASCII letters and digits, 2 to 10 long. */
  function KeywordsOf(title: string): (r: seq<string>)
    ensures forall k :: 0 <= k < |r| ==> 2 <= |r[k]| <= 10
  {
    Filter(SplitOnSpaceRuns(MaskNonKeyword(title)), (w: string) => 2 <= |w| <= 10)
  }

  /** The words of all titles, in order. */
  function AllKeywords(titles: seq<string>): seq<string> {
    if titles == [] then [] else AllKeywords(titles[..|titles| - 1]) + KeywordsOf(titles[|titles| - 1])
  }

  lemma {:induction false} AllKeywordsLengths(titles: seq<string>)
    ensures forall w :: w in AllKeywords(titles) ==> 2 <= |w| <= 10
  {
    if titles != [] {
      AllKeywordsLengths(titles[..|titles| - 1]);
      var ks := KeywordsOf(titles[|titles| - 1]);
      assert forall w :: w in ks ==> 2 <= |w| <= 10 by {
        forall w | w in ks ensures 2 <= |w| <= 10 {
          var k :| 0 <= k < |ks| && ks[k] == w;
        }
      }
    }
  }

  lemma {:induction false} AllKeywordsMember(titles: seq<string>, w: string)
    requires w in AllKeywords(titles)
    ensures exists t :: t in titles && w in KeywordsOf(t)
  {
    var init := titles[..|titles| - 1];
    var last := titles[|titles| - 1];
    if w in AllKeywords(init) {
      AllKeywordsMember(init, w);
      var t :| t in init && w in KeywordsOf(t);
      assert t in titles;
    } else {
      assert w in KeywordsOf(last);
    }
  }

  predicate IsFrequent(b: Bucket<string, string>) { |b.items| >= 2 }

  /** The words seen at least twice with their occurrences, most frequent first. */
  function RankedWords(words: seq<string>): seq<Bucket<string, string>> {
    SortDesc(Filter(GroupBy(words, Id), IsFrequent), BucketSize)
  }

  /** The words counted at least twice, most frequent first (words seen first win ties),
      at most three. */
  function CommonKeywords(titles: seq<string>): (r: seq<string>)
    ensures |r| <= 3
  {
    Take(Keys(RankedWords(AllKeywords(titles))), 3)
  }

  lemma RankedWordsSound(words: seq<string>, b: Bucket<string, string>)
    requires b in RankedWords(words)
    ensures b.key in words && |b.items| == Occurrences(words, b.key) && |b.items| >= 2
  {
    SortDescMembers(Filter(GroupBy(words, Id), IsFrequent), BucketSize);
    GroupByBucket(words, Id, b);
    var i :| 0 <= i < |words| && Id(words[i]) == b.key;
  }

  lemma RankedWordsComplete(words: seq<string>, n: nat)
    requires n < |words| && Occurrences(words, words[n]) >= 2
    ensures Bucket(words[n], ItemsWithKey(words, Id, words[n])) in RankedWords(words)
  {
    GroupByKey(words, Id, n);
    SortDescMembers(Filter(GroupBy(words, Id), IsFrequent), BucketSize);
  }

  /** `findCommonKeywords` keeps words of the titles seen at least twice. */
  lemma CommonKeywordsSound(titles: seq<string>)
    ensures forall k :: 0 <= k < |CommonKeywords(titles)| ==>
      2 <= |CommonKeywords(titles)[k]| <= 10 && CommonKeywords(titles)[k] in AllKeywords(titles)
      && Occurrences(AllKeywords(titles), CommonKeywords(titles)[k]) >= 2
  {
    var words := AllKeywords(titles);
    var sorted := RankedWords(words);
    var r := CommonKeywords(titles);
    AllKeywordsLengths(titles);
    forall k | 0 <= k < |r|
      ensures 2 <= |r[k]| <= 10 && r[k] in words && Occurrences(words, r[k]) >= 2
    {
      RankedWordsSound(words, sorted[k]);
    }
  }

  /** `findCommonKeywords` lists the more frequent words first. */
  lemma CommonKeywordsOrdered(titles: seq<string>)
    ensures forall k, l :: 0 <= k < l < |CommonKeywords(titles)| ==>
      Occurrences(AllKeywords(titles), CommonKeywords(titles)[k])
        >= Occurrences(AllKeywords(titles), CommonKeywords(titles)[l])
  {
    var words := AllKeywords(titles);
    var sorted := RankedWords(words);
    var r := CommonKeywords(titles);
    forall k, l | 0 <= k < l < |r|
      ensures Occurrences(words, r[k]) >= Occurrences(words, r[l])
    {
      RankedWordsSound(words, sorted[k]);
      RankedWordsSound(words, sorted[l]);
      assert BucketSize(sorted[k]) >= BucketSize(sorted[l]);
    }
  }

  /** Fewer than three common keywords means every word seen twice is among them. */
  lemma CommonKeywordsComplete(titles: seq<string>)
    ensures |CommonKeywords(titles)| < 3 ==>
      forall w :: w in AllKeywords(titles) && Occurrences(AllKeywords(titles), w) >= 2 ==>
        w in CommonKeywords(titles)
  {
    var words := AllKeywords(titles);
    var sorted := RankedWords(words);
    var r := CommonKeywords(titles);
    if |r| < 3 {
      forall w | w in words && Occurrences(words, w) >= 2 ensures w in r {
        var n :| 0 <= n < |words| && words[n] == w;
        RankedWordsComplete(words, n);
        var m :| 0 <= m < |sorted| && sorted[m] == Bucket(words[n], ItemsWithKey(words, Id, words[n]));
        assert r[m] == w;
      }
    }
  }

  /** `findCommonKeywords` as written: one pass over the titles counting every word into a
      `Map`, then the filter, sort, projection and slice. */
  method FindCommonKeywords(titles: seq<string>) returns (r: seq<string>)
    ensures r == CommonKeywords(titles)
  {
    var words: seq<string> := [];
    for i := 0 to |titles|
      invariant words == AllKeywords(titles[..i])
    {
      assert titles[..i + 1][..i] == titles[..i];
      words := words + KeywordsOf(titles[i]);
    }
    assert titles[..|titles|] == titles;
    var keywordCount := GroupInto(words, Id);
    r := Take(Keys(SortDesc(Filter(keywordCount, IsFrequent), BucketSize)), 3);
  }

  // ---------------------------------------------------------------------------
  // extractTitleFromArticles (routes.js:447-485)

  function TitlesOf(articles: seq<Article>): (r: seq<string>)
    ensures |r| == |articles|
    ensures forall i :: 0 <= i < |articles| ==> r[i] == articles[i].title
  {
    seq(|articles|, i requires 0 <= i < |articles| => articles[i].title)
  }

  predicate IsNonEmpty(t: string) { t != [] }

  /** A short title that may name the category itself. */
  predicate IsShortTitle(t: string) {
    2 <= |t| <= 10 && !IsNavWord(t) && !IsStopText(t)
  }

  /** A mid-length title that is not a bare category or paging word. */
  predicate IsPlausibleTitle(t: string) {
    4 <= |t| <= 20 && !IsCategoryWord(t) && !IsNavWord(t)
  }

  /** `titles.find(p)`. */
  function FirstWhere(xs: seq<string>, p: string -> bool): (r: Option<string>)
    ensures r.Some? ==> r.value in xs && p(r.value)
    ensures r.None? ==> forall x :: x in xs ==> !p(x)
  {
    if xs == [] then None
    else if p(xs[0]) then Some(xs[0])
    else
      assert forall x :: x in xs ==> x == xs[0] || x in xs[1..];
      FirstWhere(xs[1..], p)
  }

  /** `firstTitle.length > 30 ? firstTitle.substring(0, 27) + '...' : firstTitle`. */
  function Abbreviate(t: string, max: nat, keep: nat): (r: string)
    requires keep <= max
    ensures |t| <= max ==> r == t
    ensures |t| > max ==> r == t[..keep] + "..."
  {
    if |t| > max then t[..keep] + "..." else t
  }

  /** The label derived from the titles of a group's articles. */
  function TitleFromArticles(articles: seq<Article>): string {
    if articles == [] then Unnamed
    else
      var titles := NonEmptyTitles(articles);
      var shortTitles := Filter(titles, IsShortTitle);
      if shortTitles != [] then MostCommonShortTitle(shortTitles)
      else
        var keywords := CommonKeywords(titles);
        if keywords != [] then (if keywords[0] != [] then keywords[0] else Unnamed)
        else
          match FirstWhere(titles, IsPlausibleTitle)
          case Some(t) => t
          case None => Abbreviate(if titles != [] then titles[0] else Unnamed, 30, 27)
  }

  /** The short title counted most often (the first counted wins ties) when it is seen more
      than once, else the first short title. */
  function MostCommonShortTitle(shortTitles: seq<string>): string
    requires shortTitles != []
  {
    var counts := SortDesc(GroupBy(shortTitles, Id), BucketSize);
    GroupByNonEmpty(shortTitles);
    if |counts[0].items| > 1 then counts[0].key else shortTitles[0]
  }

  /** The chosen short title is one of them, and none is seen more often. */
  lemma MostCommonShortTitleSpec(shortTitles: seq<string>)
    requires shortTitles != []
    ensures var r := MostCommonShortTitle(shortTitles);
      r in shortTitles
      && forall t :: t in shortTitles ==> Occurrences(shortTitles, t) <= Occurrences(shortTitles, r)
  {
    MostCommonIsShort(shortTitles);
    MostCommonIsMaximal(shortTitles);
    var counts := SortDesc(GroupBy(shortTitles, Id), BucketSize);
    if |counts[0].items| <= 1 {
      ItemsWithKeyMember(shortTitles, Id, 0);
    }
  }

  lemma GroupByNonEmpty(xs: seq<string>)
    requires xs != []
    ensures |GroupBy(xs, Id)| > 0
  {
    assert Id(xs[0]) in KeysInOrder(xs, Id);
  }

  /** The non-empty titles of a group's articles. */
  function NonEmptyTitles(articles: seq<Article>): seq<string> {
    Filter(TitlesOf(articles), IsNonEmpty)
  }

  lemma NonEmptyTitlesFrom(articles: seq<Article>)
    ensures forall t :: t in NonEmptyTitles(articles) ==>
      t != [] && exists a :: a in articles && a.title == t
  {
    forall t | t in NonEmptyTitles(articles)
      ensures t != [] && exists a :: a in articles && a.title == t
    {
      var i :| 0 <= i < |articles| && TitlesOf(articles)[i] == t;
      assert articles[i] in articles;
    }
  }

  /** The most frequent short title is a short title. */
  lemma MostCommonIsShort(shortTitles: seq<string>)
    requires shortTitles != []
    ensures |SortDesc(GroupBy(shortTitles, Id), BucketSize)| > 0
    ensures SortDesc(GroupBy(shortTitles, Id), BucketSize)[0].key in shortTitles
  {
    GroupByNonEmpty(shortTitles);
    var b := SortDesc(GroupBy(shortTitles, Id), BucketSize)[0];
    SortDescMembers(GroupBy(shortTitles, Id), BucketSize);
    GroupByBucket(shortTitles, Id, b);
  }

  /** The derived label is never empty, is at most 30 characters, and comes from the
      articles: one of their titles, a keyword of one, the first cut to 27 characters plus
      `...`, or the placeholder. */
  lemma TitleFromArticlesSpec(articles: seq<Article>)
    ensures var r := TitleFromArticles(articles);
      && r != [] && |r| <= 30
      && (r == Unnamed
          || exists a :: a in articles
               && (r == a.title || r in KeywordsOf(a.title)
                   || (|a.title| > 30 && r == a.title[..27] + "...")))
  {
    if articles != [] {
      var titles := NonEmptyTitles(articles);
      var shortTitles := Filter(titles, IsShortTitle);
      NonEmptyTitlesFrom(articles);
      if shortTitles != [] {
        MostCommonShortTitleSpec(shortTitles);
      } else {
        var keywords := CommonKeywords(titles);
        if keywords != [] {
          CommonKeywordsSound(titles);
          if keywords[0] != [] {
            AllKeywordsMember(titles, keywords[0]);
          }
        } else if FirstWhere(titles, IsPlausibleTitle).None? && titles != [] {
          assert titles[0] in titles;
        }
      }
    }
  }

  /** When short titles exist, the label is the short title seen most often; when every
      short title is seen once, the first one. */
  lemma ShortTitleWins(articles: seq<Article>)
    requires Filter(NonEmptyTitles(articles), IsShortTitle) != []
    ensures var shortTitles := Filter(NonEmptyTitles(articles), IsShortTitle);
      var r := TitleFromArticles(articles);
      r in shortTitles
      && forall t :: t in shortTitles ==> Occurrences(shortTitles, t) <= Occurrences(shortTitles, r)
  {
    assert articles != [];
    MostCommonShortTitleSpec(Filter(NonEmptyTitles(articles), IsShortTitle));
  }

  /** The first bucket after sorting counts its key as often as any short title occurs. */
  lemma MostCommonIsMaximal(shortTitles: seq<string>)
    requires shortTitles != []
    ensures |SortDesc(GroupBy(shortTitles, Id), BucketSize)| > 0
    ensures var b := SortDesc(GroupBy(shortTitles, Id), BucketSize)[0];
      && |b.items| == Occurrences(shortTitles, b.key)
      && forall t :: t in shortTitles ==> Occurrences(shortTitles, t) <= |b.items|
  {
    var counts := SortDesc(GroupBy(shortTitles, Id), BucketSize);
    MostCommonIsShort(shortTitles);
    SortDescMembers(GroupBy(shortTitles, Id), BucketSize);
    GroupByBucket(shortTitles, Id, counts[0]);
    forall t | t in shortTitles
      ensures Occurrences(shortTitles, t) <= |counts[0].items|
    {
      var n :| 0 <= n < |shortTitles| && shortTitles[n] == t;
      GroupByKey(shortTitles, Id, n);
      var m :| 0 <= m < |counts| && counts[m] == Bucket(Id(t), ItemsWithKey(shortTitles, Id, Id(t)));
      assert m == 0 || BucketSize(counts[0]) >= BucketSize(counts[m]);
    }
  }

  /** `extractTitleFromArticles` as written: the short titles are counted into a `Map`
      one by one before the most frequent is chosen. */
  method ExtractTitleFromArticles(articles: seq<Article>) returns (r: string)
    ensures r == TitleFromArticles(articles)
  {
    if articles == [] {
      return Unnamed;
    }
    var titles := NonEmptyTitles(articles);
    var shortTitles := Filter(titles, IsShortTitle);
    if shortTitles != [] {
      var titleCount := GroupInto(shortTitles, Id);
      GroupByNonEmpty(shortTitles);
      var mostCommon := SortDesc(titleCount, BucketSize)[0];
      if |mostCommon.items| > 1 {
        return mostCommon.key;
      }
      return shortTitles[0];
    }
    var commonKeywords := FindCommonKeywords(titles);
    if commonKeywords != [] {
      return if commonKeywords[0] != [] then commonKeywords[0] else Unnamed;
    }
    var bestTitle := FirstWhere(titles, IsPlausibleTitle);
    if bestTitle.Some? {
      return bestTitle.value;
    }
    var firstTitle := if titles != [] then titles[0] else Unnamed;
    r := Abbreviate(firstTitle, 30, 27);
  }

  // ---------------------------------------------------------------------------
  // selectBestTitle (routes.js:427-445)

  /** The label a segmenter proposes, replaced by one derived from the articles when it is
      a stop word, or cut to the last part of a short breadcrumb. */
  function SelectBestTitle(rt: Runtime, originalTitle: string, articles: seq<Article>): (r: string)
    ensures originalTitle != [] ==> r != []
    ensures r == originalTitle || |r| <= 30
  {
    if originalTitle == [] || articles == [] then originalTitle
    else if IsStopLabel(originalTitle) then
      TitleFromArticlesSpec(articles);
      TitleFromArticles(articles)
    else
      match rt.crumbTail(originalTitle)
      case Some(tail) =>
        if |originalTitle| < 50 && tail != [] && 2 < |Trim(tail)| < 30 then Trim(tail)
        else originalTitle
      case None => originalTitle
  }

  /** The four cases of `selectBestTitle`. */
  lemma SelectBestTitleCases(rt: Runtime, originalTitle: string, articles: seq<Article>)
    ensures originalTitle == [] || articles == [] ==>
      SelectBestTitle(rt, originalTitle, articles) == originalTitle
    ensures originalTitle != [] && articles != [] && IsStopLabel(originalTitle) ==>
      SelectBestTitle(rt, originalTitle, articles) == TitleFromArticles(articles)
    ensures originalTitle != [] && articles != [] && !IsStopLabel(originalTitle) ==>
      var r := SelectBestTitle(rt, originalTitle, articles);
      (r == originalTitle
       || (|originalTitle| < 50 && rt.crumbTail(originalTitle).Some?
           && r == Trim(rt.crumbTail(originalTitle).value) && 3 <= |r| <= 29))
    ensures originalTitle != [] && articles != [] && !IsStopLabel(originalTitle)
            && (|originalTitle| >= 50 || rt.crumbTail(originalTitle).None?) ==>
      SelectBestTitle(rt, originalTitle, articles) == originalTitle
  {
  }

  /** The derived label does not change once it is settled: feeding a label back with the
      same articles returns it when it is neither a stop word nor a breadcrumb. */
  lemma SelectBestTitleStable(rt: Runtime, t: string, articles: seq<Article>)
    requires t != [] && !IsStopLabel(t) && rt.crumbTail(t).None?
    ensures SelectBestTitle(rt, t, articles) == t
  {
  }

  // ---------------------------------------------------------------------------
  // convertPathToTitle (routes.js:506-519)

  const PathTitles: map<string, string> := map[
    "/news" := "新闻动态", "/article" := "文章列表", "/notice" := "通知公告",
    "/policy" := "政策文件", "/zwgk" := "政务公开", "/gsgg" := "公示公告",
    "/sydwzp" := "事业单位招聘", "/content" := "内容列表", "/list" := "列表页面"]

  lemma PathTitlesNonEmpty(pattern: string)
    requires pattern in PathTitles
    ensures PathTitles[pattern] != []
  {
  }

  /** The label of a path pattern: its dictionary name, else the pattern with its slashes
      turned into spaces, else a placeholder. */
  function ConvertPathToTitle(pattern: string): (r: string)
    ensures r != []
    ensures pattern !in PathTitles ==> '/' !in r
  {
    if pattern in PathTitles then
      PathTitlesNonEmpty(pattern);
      PathTitles[pattern]
    else
      var t := Trim(ReplaceChar(pattern, '/', ' '));
      TrimIsSlice(ReplaceChar(pattern, '/', ' '));
      if t != [] then t else "文章分组"
  }

  /** The path patterns the path segmenter builds have two segments, and every dictionary
      key has one, so the dictionary is never consulted: the label is the two segments
      separated by a space. */
  lemma TwoSegmentPatternTitle(a: string, b: string)
    requires a != [] && b != [] && '/' !in a && '/' !in b
    ensures "/" + a + "/" + b !in PathTitles
    ensures '/' !in ConvertPathToTitle("/" + a + "/" + b)
  {
    var p := "/" + a + "/" + b;
    assert p[1 + |a|] == '/';
    forall k | k in PathTitles ensures k != p {
      assert '/' !in k[1..];
    }
  }

  // ---------------------------------------------------------------------------
  // extractClusterTitle (routes.js:412-425)

  /** `closest('div, section, article, h1, h2, h3')`. */
  predicate IsSectionOrHeading(n: Node) {
    n.tag in ["div", "section", "article", "h1", "h2", "h3"]
  }

  /** Heading `j` lies inside the section of anchor `a`. */
  predicate InSectionOf(doc: Document, j: nat, a: nat)
    requires j < |doc| && a < |doc|
  {
    match Closest(doc, a, IsSectionOrHeading)
    case None => false
    case Some(c) => IsDescendant(doc, j, c)
  }

  /** `$('a[href="X"]').closest(...).find('h1, h2, h3').first().text().trim()`. */
  function SectionHeadingText(doc: Document, href: string): string {
    var anchors := Matching(doc, (n: Node) => n.tag == "a" && n.href == Some(href));
    var hs := IndicesBelow(|doc|, (j: nat) => j < |doc| && IsHeadingTag(doc[j].tag)
                && exists k :: 0 <= k < |anchors| && InSectionOf(doc, j, anchors[k]));
    if hs == [] then [] else Trim(doc[hs[0]].text)
  }

  /** The label of a cluster: the heading of its first link's section when that has 3
      to 49 characters, else the first link's text cut to 50. The section is looked up
      through the selector `a[href="X"]` built from the first link's raw `href`, so the
      label is `None` (the call throws) exactly when that selector does not parse. */
  function ExtractClusterTitle(rt: Runtime, doc: Document, links: seq<Link>): (r: Option<string>)
    ensures r.None? <==> links != [] && rt.hrefSelector(links[0].href).None?
    ensures r.Some? ==> |r.value| <= 50
    ensures r.Some? && links != [] && links[0].text != [] ==> r.value != []
    ensures links == [] ==> r == Some(Unnamed)
  {
    if links == [] then Some(Unnamed)
    else
      var first := links[0];
      match rt.hrefSelector(first.href)
      case None => None
      case Some(wanted) =>
        var containerTitle := SectionHeadingText(doc, wanted);
        if containerTitle != [] && 2 < |containerTitle| < 50 then Some(containerTitle)
        else Some(Abbreviate(first.text, 50, 47))
  }

  /** When the runtime reads plain selectors literally, a cluster whose first `href` is
      plain always gets a label, taken from the section of the anchors carrying that very
      `href`. */
  lemma PlainHrefTitle(rt: Runtime, doc: Document, links: seq<Link>)
    requires PlainSelectors(rt)
    requires links != [] && IsPlainHref(links[0].href)
    ensures ExtractClusterTitle(rt, doc, links).Some?
    ensures var t := SectionHeadingText(doc, links[0].href);
      2 < |t| < 50 ==> ExtractClusterTitle(rt, doc, links) == Some(t)
  {
  }

  // ---------------------------------------------------------------------------
  // getElementXPath (routes.js:406-411)

  /** `tagName.toLowerCase() || 'unknown'` followed by `.` and the first class name when
      there is a class. The caller passes a cheerio element, which has no `className`
      property, so that branch is never taken there and every xpath is the bare tag name;
      the xpath stored on a cluster (routes.js:284) is read by nothing downstream. */
  function ElementXPath(tagName: string, className: string): (r: string)
    ensures var t := if tagName == [] then "unknown" else ToLowerAscii(tagName);
      && StartsWith(r, t)
      && (className == [] ==> r == t)
      && (className != [] ==> |r| > |t| && r[|t|] == '.' && ' ' !in r[|t| + 1..]
                               && StartsWith(className, r[|t| + 1..]))
  {
    var t := if tagName == [] then "unknown" else ToLowerAscii(tagName);
    if className == [] then t
    else
      JoinSplitPrefix(className, ' ', 1);
      var first := Split(className, ' ')[0];
      assert Split(className, ' ')[..1] == [first];
      assert (t + "." + first)[|t| + 1..] == first;
      t + "." + first
  }

  // ---------------------------------------------------------------------------
  // extractSuggestedTitle (routes.js:207-267)

  const CrumbSelectorCount: nat := 11

  /** Elements with tag `tag` below an element satisfying `anc`. */
  function TagUnder(doc: Document, anc: Node -> bool, tag: string): (r: seq<nat>)
    ensures forall k :: 0 <= k < |r| ==> r[k] < |doc|
  {
    IndicesBelow(|doc|, (j: nat) => j < |doc| && doc[j].tag == tag && HasAncestorWhere(doc, j, anc))
  }

  /** The `:last-child` pseudo-class applied to a selection. */
  function LastChildren(doc: Document, sel: seq<nat>): (r: seq<nat>)
    ensures forall k :: 0 <= k < |r| ==> r[k] < |doc| && IsLastChild(doc, r[k])
  {
    Filter(sel, (j: nat) => j < |doc| && IsLastChild(doc, j))
  }

  predicate HasBreadcrumbClass(n: Node) { HasClassName(n, "breadcrumb") }
  predicate MentionsBreadcrumb(n: Node) { ClassContains(n, "breadcrumb") }
  predicate MentionsCurrentPosition(n: Node) { ClassContains(n, "当前位置") }
  predicate MentionsPosition(n: Node) { ClassContains(n, "位置") }
  predicate MentionsNavigation(n: Node) { ClassContains(n, "导航") }
  predicate MentionsPath(n: Node) { ClassContains(n, "路径") }
  predicate IsNav(n: Node) { n.tag == "nav" }
  predicate IsOrderedList(n: Node) { n.tag == "ol" }
  predicate IsNavList(n: Node) { n.tag == "ul" && ClassContains(n, "nav") }

  /** The `k`-th breadcrumb selector, in the order they are tried. */
  function CrumbSelection(doc: Document, k: nat): (r: seq<nat>)
    requires k < CrumbSelectorCount
    ensures forall i :: 0 <= i < |r| ==> r[i] < |doc|
  {
    if k == 0 then LastChildren(doc, TagUnder(doc, HasBreadcrumbClass, "a"))
    else if k == 1 then
      var all := TagUnder(doc, HasBreadcrumbClass, "a");
      if all == [] then [] else [all[|all| - 1]]
    else if k == 2 then LastChildren(doc, TagUnder(doc, MentionsBreadcrumb, "a"))
    else if k == 3 then LastChildren(doc, TagUnder(doc, MentionsCurrentPosition, "a"))
    else if k == 4 then LastChildren(doc, TagUnder(doc, MentionsCurrentPosition, "span"))
    else if k == 5 then LastChildren(doc, TagUnder(doc, MentionsPosition, "a"))
    else if k == 6 then LastChildren(doc, TagUnder(doc, MentionsNavigation, "a"))
    else if k == 7 then LastChildren(doc, TagUnder(doc, MentionsPath, "a"))
    else if k == 8 then LastChildren(doc, TagUnder(doc, IsNav, "a"))
    else if k == 9 then LastChildren(doc, TagUnder(doc, IsOrderedList, "a"))
    else LastChildren(doc, TagUnder(doc, IsNavList, "a"))
  }

  /** A candidate title of acceptable length: more than 2 and fewer than 50 characters. */
  predicate IsTitleLength(t: string) { 2 < |t| < 50 }

  /** The first breadcrumb selector, from the `k`-th on, whose text is a title. */
  function FromCrumbSelectors(doc: Document, k: nat): (r: Option<string>)
    requires k <= CrumbSelectorCount
    ensures r.Some? ==> IsTitleLength(r.value) && Trim(r.value) == r.value
    decreases CrumbSelectorCount - k
  {
    if k == CrumbSelectorCount then None
    else
      var sel := CrumbSelection(doc, k);
      var text := Trim(TextOf(doc, sel));
      TrimIdempotent(TextOf(doc, sel));
      if sel != [] && text != [] && IsTitleLength(text) then Some(text)
      else FromCrumbSelectors(doc, k + 1)
  }

  /** The first body breadcrumb pattern, from the `k`-th on, whose capture is a title. */
  function FromBodyCrumbs(rt: Runtime, bodyText: string, k: nat): (r: Option<string>)
    requires k <= 4
    ensures r.Some? ==> IsTitleLength(r.value) && Trim(r.value) == r.value
    decreases 4 - k
  {
    if k == 4 then None
    else
      match rt.bodyCrumb(k, bodyText)
      case Some(title) =>
        TrimIdempotent(title);
        if title != [] && IsTitleLength(Trim(title)) then Some(Trim(title))
        else FromBodyCrumbs(rt, bodyText, k + 1)
      case None => FromBodyCrumbs(rt, bodyText, k + 1)
  }

  /** The text of every element with tag `tag`, concatenated. */
  function TextOfTag(doc: Document, tag: string): string {
    TextOf(doc, Matching(doc, (n: Node) => n.tag == tag))
  }

  /** `$('h1').first().text()`. */
  function FirstH1Text(doc: Document): string {
    var hs := Matching(doc, (n: Node) => n.tag == "h1");
    if hs == [] then [] else doc[hs[0]].text
  }

  /** The page title from the `<title>` element, without a site-name suffix. */
  function FromTitleElement(doc: Document): (r: Option<string>)
    ensures r.Some? ==> IsTitleLength(r.value) && Trim(r.value) == r.value
  {
    var title := Trim(TextOfTag(doc, "title"));
    var cleanTitle := Trim(StripSiteSuffix(title));
    TrimIdempotent(StripSiteSuffix(title));
    if title != [] && IsTitleLength(cleanTitle) then Some(cleanTitle) else None
  }

  /** A name for the page: the breadcrumb, a breadcrumb in the body text, the `<title>`,
      the first `<h1>`, and finally the hostname; `None` is the throw of `new URL(url)`
      when nothing before it applied. */
  function ExtractSuggestedTitle(rt: Runtime, url: string, doc: Document): (r: Option<string>)
    ensures r.None? ==> rt.resolve(url, None).None?
    ensures r.Some? && !(IsTitleLength(r.value) && Trim(r.value) == r.value) ==>
      rt.resolve(url, None).Some? && r.value == rt.resolve(url, None).value.hostname
  {
    match FromCrumbSelectors(doc, 0)
    case Some(t) => Some(t)
    case None =>
      match FromBodyCrumbs(rt, TextOfTag(doc, "body"), 0)
      case Some(t) => Some(t)
      case None =>
        match FromTitleElement(doc)
        case Some(t) => Some(t)
        case None =>
          var h1 := Trim(FirstH1Text(doc));
          TrimIdempotent(FirstH1Text(doc));
          if h1 != [] && IsTitleLength(h1) then Some(h1)
          else
            match rt.resolve(url, None)
            case None => None
            case Some(u) => Some(u.hostname)
  }
}
