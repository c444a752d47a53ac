# Web-page segmentation and external API keys, modelled in Dafny

This project models two parts of the feeds server and proves properties about them.

**The segmentation engine** is in `server/dist/modules/feeds/routes.js`. It takes a fetched web
page and splits it into groups of article links. Each group gets a title token (a label). Three
segmenters do the splitting:

- the heading walker (`segmentByHeadings`);
- the link-cluster scorer (`segmentByClusters`);
- the path-pattern grouper (`segmentByPathPatterns`).

In `auto` mode, `mergeSimilarGroups` merges the results of all three. Each segmenter labels its
groups with `selectBestTitle`, which may fall back to `extractTitleFromArticles` and
`findCommonKeywords`. `extractSuggestedTitle` names the page. The `/webpage-segmentation`
handler tries a single headless-browser fallback, then cuts the answer down to 15 groups of at
most 50 articles each. The `/webpage-build-rss` handler filters the chosen articles and stores
them as a feed.

**The external API key service** is `ExternalApiService` in
`server/src/modules/external/external-api-service.ts`. Here it works over an in-memory copy of
its two tables, `app.external_api_keys` and `app.external_api_usage`. The service:

- adds keys and stores them base64-encoded;
- checks the daily quota;
- records usage, where only successful calls count against the quota;
- soft-deletes keys;
- lists a user's keys with the secret masked;
- aggregates usage statistics per provider and per day.

The model follows the code's form:

- **The page.** A page is a flat sequence of elements in document order (module `Dom`). Cheerio
  queries become functions over that sequence.
- **The runtime.** The WHATWG URL parser, two regular expressions whose capture groups the code
  reads, cheerio's parser of the `a[href="X"]` selectors built from raw links, and the clock are
  parameters, bundled in `Env.Runtime`.
- **Loops and in-place maps.** The `.each`/`forEach` loops, the bounded sibling walk and the
  `Map`s filled in place become methods with loop invariants. Each of these methods is proved
  equal to a specification function, and the promised properties are proved as lemmas about
  that function.
- **The service.** `ExternalApi.ExternalApiService` is a class whose `keys` and `usage` fields
  stand for the two tables. Each async method is a method of that class.
- **Throws.** A JavaScript throw is an `Option`/`Result` error value.
- **Numbers.** Scores are exact reals.

Where the code does something other than what its own comments or names suggest, the model
follows the code:

- **`auto` fallback.** After an empty static result, the snapshot fallback (routes.js:2206-2224)
  re-runs only the heading segmenter on the rendered page in `auto` mode, although the comment
  at routes.js:2178 says `auto` mode tries all strategies.
- **No failure isolation.** The same comment and the use of `Promise.allSettled` suggest that a
  failing strategy is skipped. But the three segmenters are called synchronously while the
  argument array is built, so they are not isolated from each other. One throwing segmenter
  turns the whole request into a server error (`Segmentation.ThrowIsServerError`).
- **No deduplication outside merges.** The comment at routes.js:2191 speaks of deduplicating, but
  groups from the cluster and path-pattern segmenters are not deduplicated by link. Only heading
  groups and merged groups have distinct links.
- **Single short title.** The comment at routes.js:458 says the most frequent of several short
  titles is chosen, but `extractTitleFromArticles` returns the first short title even when it
  occurs only once.
- **Length window.** The `bestTitle` length window is `[4, 20]`, both ends included.
- **Dictionary never used.** `convertPathToTitle`'s dictionary has one-segment keys, but
  patterns always have two segments. So the dictionary is never consulted
  (`Titles.TwoSegmentPatternTitle`).
- **Selectors built from raw links.** The cluster labeller and the navigation filter look
  anchors up again with the selector `a[href="X"]`, where `X` is the raw `href`. An `href`
  holding `"` (or ending in a backslash) makes that selector throw, which turns the segmenter's
  whole answer into a server error. An `href` with a backslash asks for a different value, so
  the lookup misses its own anchor (`Env.Runtime.hrefSelector`).
- **Inactive keys.** Deleting an already inactive key still answers `true`. Recording a
  successful call on an inactive key still increments its count. Both follow from the SQL.

## Model

| member | source | states |
|---|---|---|
| `Urls.NormalizeThenSameHost` | server/dist/modules/feeds/routes.js:189-206 | A link that resolves against the page passes `normalizeUrl` then `isSameHost` exactly when the page URL parses and the link's hostname is the page's. |
| `Urls.UnresolvableHrefPassesSameHost` | server/dist/modules/feeds/routes.js:189-206 | An href that does not resolve normalizes to `''`, and `''` passes the same-host test, because it resolves against the page to a URL on the page's host (the page without its fragment). |
| `Urls.PathSegments` | server/dist/modules/feeds/routes.js:345 | The non-empty path segments contain no `/`. |
| `Urls.PathPrefix` | server/dist/modules/feeds/routes.js:290 | The cluster path key is a prefix of the pathname. |
| `Urls.PathPrefixTwoSegments` | server/dist/modules/feeds/routes.js:290 | For a path `/a/b…` the cluster path key is exactly `/a/b`. |
| `Urls.SplitTwoSegments` | server/dist/modules/feeds/routes.js:345-347 | The first pieces of splitting `/a/b…` on `/` are the empty piece, `a` and `b`. |
| `Text.TrimIsSlice` | server/dist/modules/feeds/routes.js:275 | `trim` keeps a slice of its input, with white space cut from both ends only. |
| `Text.TrimIdempotent` | server/dist/modules/feeds/routes.js:580 | Trimming twice is trimming once. |
| `Text.JoinSplit` | server/dist/modules/feeds/routes.js:290 | `split` then `join` on the same separator gives the string back. |
| `Text.JoinSplitPrefix` | server/dist/modules/feeds/routes.js:290 | Joining the first pieces of a split gives a prefix of the string. |
| `Text.CollapseSpaces` | server/dist/modules/feeds/routes.js:630 | `replace(/\s+/g, ' ')` never lengthens a title and keeps a non-empty one non-empty. |
| `Text.ReplaceChar` | server/dist/modules/feeds/routes.js:518 | `replace(/\//g, ' ')` changes exactly the slashes, each into a space. |
| `Text.SplitOnSpaceRuns` | server/dist/modules/feeds/routes.js:493 | `split(/\s+/)` gives at least one piece, and no piece holds white space. |
| `Dom.Closest` | server/dist/modules/feeds/routes.js:283 | `closest` returns the element itself or one of its ancestors, matching the selector, and nothing only when neither the element nor any ancestor matches. |
| `Dom.HeadingLevel` | server/dist/modules/feeds/routes.js:587 | The level of an `h1`–`h3` is its digit, and every level lies between 1 and 3. |
| `Dom.LinksUnder` | server/dist/modules/feeds/routes.js:598 | `find('a[href]')` yields exactly the links strictly inside the element, in document order. |
| `Patterns.StripSiteSuffix` | server/dist/modules/feeds/routes.js:256 | The cleaned `<title>` is a prefix of the title, and it is shorter exactly when a site-name separator occurs. |
| `Patterns.StripSiteSuffixLeftmost` | server/dist/modules/feeds/routes.js:256 | The cut is at the leftmost position where the site-name pattern (white space, a dash or a bar, white space, then anything) matches, and nothing is cut when it matches nowhere. |
| `Patterns.MaskNonKeyword` | server/dist/modules/feeds/routes.js:492 | Every character outside `[一-龥a-zA-Z0-9]` becomes a space and the others are kept. |
| `Patterns.CollapseBreaks` | server/dist/modules/feeds/routes.js:2260 | The feed title has no newline, carriage return or tab left, and is no longer than before. |
| `Articles.DedupByLink` | server/dist/modules/feeds/routes.js:635-641 | The `seen`-set filter keeps articles with distinct links, covers every link of its input, and only keeps input articles. |
| `Articles.DedupByLinkFirst` | server/dist/modules/feeds/routes.js:635-641 | An article whose link no earlier article has is kept. |
| `Articles.DedupByLinkDistinct` | server/dist/modules/feeds/routes.js:635-641 | When the links are already distinct, nothing is dropped. |
| `Collections.SortDescMembers` | server/dist/modules/feeds/routes.js:314 | The descending sort holds exactly the elements of its input. |
| `Collections.SortDesc` | server/dist/modules/feeds/routes.js:365 | The sort by a key returns a permutation of its input, ordered by that key, largest first. |
| `Collections.Take` | server/dist/modules/feeds/routes.js:366 | `slice(0, n)` is the prefix of length min(n, length). |
| `Collections.GroupInto` | server/dist/modules/feeds/routes.js:288-296 | Filing items into an insertion-ordered `Map` of arrays gives each key's items in order, keys in first-seen order. |
| `Collections.GroupBy` | server/dist/modules/feeds/routes.js:348-351 | `Array.from(map.entries())` has one bucket per key in first-seen order, holding exactly that key's items in order. |
| `Collections.TopBuckets` | server/dist/modules/feeds/routes.js:355-366 | Filtering, sorting and cutting the buckets keeps at most `n` sorted buckets of the grouping, each accepted by the filter and holding its key's items. An accepted bucket is left out only when `n` were returned, each ranking at least as high. |
| `Collections.TopSelection` | server/dist/modules/feeds/routes.js:312-315 | Sorting descending and cutting to `n` returns everything when there are at most `n` elements; an element left out ranks no higher than any returned one, and only when `n` were returned. |
| `Collections.SomeOrThrowFalse` | server/dist/modules/feeds/routes.js:359-362 | `some` with a callback that may throw answers `false` exactly when no item throws and none is a hit. |
| `Collections.SomeOrThrowNone` | server/dist/modules/feeds/routes.js:359-362 | `some` with a callback that may throw throws exactly when some item throws before any hit is met. |
| `Collections.FirstWithKey` | server/dist/modules/feeds/routes.js:290-295 | The item that introduces a key into the `Map` heads that key's bucket. |
| `Collections.FilterDistinct` | server/dist/modules/feeds/routes.js:2290-2319 | Filtering keeps pairwise distinct values distinct. |
| `Clusters.CollectCandidates` | server/dist/modules/feeds/routes.js:273-286 | The `.each` loop collects exactly the anchors with trimmed text of at least 3 characters, an href, and a same-host absolute URL. |
| `Clusters.CandidateLinksSpec` | server/dist/modules/feeds/routes.js:274-286 | Every collected link has a text of 3 characters or more, an href and a same-host absolute URL. |
| `Clusters.ScoreBounds` | server/dist/modules/feeds/routes.js:298-303 | A cluster's score lies in [0.2, 1]. |
| `Clusters.KeptIffThreeLinks` | server/dist/modules/feeds/routes.js:312-313 | A cluster passes `score > 0.1 && links.length >= 3` exactly when it has 3 links: the score test never bites. |
| `Clusters.TopClustersSpec` | server/dist/modules/feeds/routes.js:312-315 | At most ten clusters, best score first. Each has at least 3 links, a score in [0.2, 1], the label `extractClusterTitle` gives its links, and input links that all share its key. A scored cluster with at least 3 links is left out only when ten were returned, each scoring at least as high. |
| `Clusters.LinkArticlesSpec` | server/dist/modules/feeds/routes.js:317-321 | A cluster's articles keep the anchor test: a title of 3 characters or more, on the page's host. |
| `Clusters.FileIntoClusters` | server/dist/modules/feeds/routes.js:288-296 | The `forEach` fills the cluster map as the grouping by key, and throws exactly when some link's absolute URL does not parse again. |
| `Clusters.FileByCluster` | server/dist/modules/feeds/routes.js:289-296 | One link either throws on re-parse or is filed under `${container}-${pathPrefix}`, keeping the grouping state. |
| `Clusters.ClusterSegmentsSpec` | server/dist/modules/feeds/routes.js:269-328 | Every cluster group has a non-empty label and at least 3 articles, each titled with 3 characters or more and on the page's host. |
| `Clusters.SegmentByClusters` | server/dist/modules/feeds/routes.js:269-328 | The segmenter as written returns the specified groups, and `None` exactly on its throws: the page URL or a collected link's URL does not parse, or the label selector of some cluster's first link does not parse. |
| `Clusters.ClusterSelectorThrows` | server/dist/modules/feeds/routes.js:297-308 | A link that opens its cluster and whose `a[href="X"]` selector does not parse makes the segmenter throw, whether or not its cluster would be kept. |
| `PathGroups.TopPatternsSpec` | server/dist/modules/feeds/routes.js:355-366 | At most eight patterns, most links first. Each has 3 links or more, none in navigation chrome and each with a parsing selector, and its key is the first two path segments of each of its links. A pattern passing the filter is left out only when eight were returned, each with at least as many links. |
| `PathGroups.NavScanClean` | server/dist/modules/feeds/routes.js:359-362 | The `some` over a pattern's links answers `false` exactly when every link's selector parses and no link sits in navigation chrome. |
| `PathGroups.NavScanThrows` | server/dist/modules/feeds/routes.js:359-362 | The `some` throws exactly when a link's selector fails before any chrome link is met. |
| `PathGroups.KeptPatternIff` | server/dist/modules/feeds/routes.js:356-363 | A pattern passes the filter exactly when it has at least 3 links, all with parsing selectors and none in chrome. |
| `PathGroups.PatternBucketLinks` | server/dist/modules/feeds/routes.js:344-352 | A pattern bucket's links were collected, have two path segments or more, and the first two make its key. |
| `PathGroups.PatternSelectorThrows` | server/dist/modules/feeds/routes.js:355-363 | A pattern whose first link's selector does not parse makes the segmenter throw, however small the pattern. |
| `PathGroups.LinkSegments` | server/dist/modules/feeds/routes.js:344-345 | The path parts are non-empty and contain no `/`. |
| `PathGroups.FirstClassed` | server/dist/modules/feeds/routes.js:360-361 | The element whose `class` the navigation test reads is a classed element of the page. |
| `PathGroups.PatternGroupSpec` | server/dist/modules/feeds/routes.js:367-378 | A kept pattern's group has 3 to 50 articles drawn from collected links. |
| `PathGroups.PatternSegmentsSpec` | server/dist/modules/feeds/routes.js:330-380 | Every path-pattern group has a non-empty label and 3 to 50 articles, each titled with 3 characters or more and on the page's host. |
| `PathGroups.FileByPattern` | server/dist/modules/feeds/routes.js:344-352 | One link either throws on re-parse or is filed under its pattern, keeping the grouping state. |
| `PathGroups.FilePatterns` | server/dist/modules/feeds/routes.js:335-353 | The anchor loop collects the candidate links and files those with two segments, or throws exactly when a collected link does not re-parse. |
| `PathGroups.FileAnchor` | server/dist/modules/feeds/routes.js:335-352 | One anchor's link, if collected, either throws on re-parse (then the whole pass throws) or is filed, keeping the pass state. |
| `PathGroups.PrefixLinkThrows` | server/dist/modules/feeds/routes.js:344 | One collected link that does not re-parse makes the whole segmenter throw. |
| `PathGroups.SegmentByPathPatterns` | server/dist/modules/feeds/routes.js:330-380 | The segmenter as written returns the specified groups, and `None` exactly on its throws: the page URL or a collected link's URL does not parse, or the navigation scan of some pattern meets a selector that does not parse. |
| `Merge.AllArticlesMembers` | server/dist/modules/feeds/routes.js:384-400 | An article is among all the groups' articles exactly when it is in one of the groups. |
| `Merge.MergedGroups` | server/dist/modules/feeds/routes.js:383-400 | One merged group per label, in first-seen order, holding the deduplicated articles of that label's groups. |
| `Merge.MergeSimilarGroupsSpec` | server/dist/modules/feeds/routes.js:382-404 | Largest group first. Each merged group has at least two articles with distinct links, and holds exactly the links of the input groups with its label. |
| `Merge.MergeKeepsLargeGroups` | server/dist/modules/feeds/routes.js:401-403 | A label whose merged articles number two or more is in the result. |
| `Merge.MergeTwoSameLabel` | server/dist/modules/feeds/routes.js:382-404 | Two groups with one label merge into one group holding the deduplicated union of their articles. |
| `Merge.PushNewArticles` | server/dist/modules/feeds/routes.js:393-399 | Pushing the articles whose link is not yet in the `Set` extends the deduplicated list. |
| `Merge.MergeGroups` | server/dist/modules/feeds/routes.js:382-404 | The merge as written, a `Map` filled group by group, gives the specified result. |
| `Headings.ChainShape` | server/dist/modules/feeds/routes.js:589-634 | The sibling chain follows `next()` and stops at the first heading of the same or a higher level. |
| `Headings.RegionShape` | server/dist/modules/feeds/routes.js:589-634 | The walk visits at most 25 siblings, none a stopping heading, and ends early only when the siblings run out or a stopping heading comes. |
| `Headings.WalkEnds` | server/dist/modules/feeds/routes.js:591 | Where the `while` loop's condition fails, the siblings visited are the heading's region. |
| `Headings.AdmitAnchorSpec` | server/dist/modules/feeds/routes.js:598-630 | The anchor filter admits an anchor exactly under the stated conditions: href, a text of 5 to 100 characters, no paging, stop or breadcrumb text, same host, and a date on the recruitment page. |
| `Headings.RegionArticlesSource` | server/dist/modules/feeds/routes.js:598-631 | Every article found comes from a link inside one of the region's siblings. |
| `Headings.HeadingArticlesSpec` | server/dist/modules/feeds/routes.js:635-641 | A heading's articles number at most 30, have distinct links, and come from admitted anchors in its region. When fewer than 30 are returned, the link of every admitted anchor in the region is among them. |
| `Headings.RegionArticlesComplete` | server/dist/modules/feeds/routes.js:591-634 | Every anchor inside a sibling of the region that passes the filter contributes its article. |
| `Headings.HeadingGroupSpec` | server/dist/modules/feeds/routes.js:579-646 | A heading group has an accepted heading, 2 to 30 articles with distinct links, and a label that `selectBestTitle` picks from the heading. |
| `Headings.HeadingSegmentsSpec` | server/dist/modules/feeds/routes.js:555-648 | Every heading group has 2 to 30 articles with distinct links, all on the page's host, under an accepted `h1`–`h3`. |
| `Headings.CollectAnchors` | server/dist/modules/feeds/routes.js:598-631 | The inner `.each` yields the articles of one sibling. |
| `Headings.WalkSiblings` | server/dist/modules/feeds/routes.js:589-634 | The bounded `while` walk yields the articles of the heading's region. |
| `Headings.SegmentByHeadings` | server/dist/modules/feeds/routes.js:555-648 | The segmenter as written returns the specified groups. |
| `Titles.AllKeywordsLengths` | server/dist/modules/feeds/routes.js:491-494 | Every counted keyword has 2 to 10 characters. |
| `Titles.CommonKeywordsSound` | server/dist/modules/feeds/routes.js:487-505 | `findCommonKeywords` returns at most three words, each counted at least twice among the titles' words. |
| `Titles.KeywordsOf` | server/dist/modules/feeds/routes.js:491-494 | A title's words have 2 to 10 characters. |
| `Titles.RankedWordsSound` | server/dist/modules/feeds/routes.js:500-502 | Every ranked word occurs among the words, and its bucket holds as many items as it has occurrences, at least two. |
| `Titles.RankedWordsComplete` | server/dist/modules/feeds/routes.js:500-502 | Every word that occurs twice or more has its bucket among the ranked words. |
| `Titles.CommonKeywordsOrdered` | server/dist/modules/feeds/routes.js:500-503 | More frequent keywords come first. |
| `Titles.CommonKeywordsComplete` | server/dist/modules/feeds/routes.js:500-504 | With fewer than three results, every word seen twice is among them. |
| `Titles.FindCommonKeywords` | server/dist/modules/feeds/routes.js:487-505 | The counting loop as written gives the specified keywords. |
| `Titles.MostCommonShortTitleSpec` | server/dist/modules/feeds/routes.js:457-468 | The chosen short title is one of them, and none is seen more often. |
| `Titles.MostCommonIsMaximal` | server/dist/modules/feeds/routes.js:459-464 | The first bucket after the count sort holds its title's occurrences, and no short title occurs more often. |
| `Titles.FirstWhere` | server/dist/modules/feeds/routes.js:476-479 | `titles.find(p)` finds a title satisfying `p`, and finds none only when no title does. |
| `Titles.Abbreviate` | server/dist/modules/feeds/routes.js:484 | A title longer than 30 characters is cut to its first 27 plus `...`, and a shorter one is kept whole. |
| `Titles.TitleFromArticlesSpec` | server/dist/modules/feeds/routes.js:447-485 | The derived label is non-empty and at most 30 characters. It is an article title, a keyword of one, an abbreviated title, or the placeholder. |
| `Titles.ShortTitleWins` | server/dist/modules/feeds/routes.js:453-469 | When short titles exist, the label is a short title counted at least as often as any other. |
| `Titles.ExtractTitleFromArticles` | server/dist/modules/feeds/routes.js:447-485 | The `Map`-counting code as written gives the specified label. |
| `Titles.SelectBestTitle` | server/dist/modules/feeds/routes.js:427-445 | A non-empty label stays non-empty, and is either kept or replaced by one of at most 30 characters. |
| `Titles.SelectBestTitleCases` | server/dist/modules/feeds/routes.js:427-445 | The four cases: empty input kept, a stop label replaced from the articles, a short breadcrumb cut to its 3 to 29 character tail, anything else kept. |
| `Titles.SelectBestTitleStable` | server/dist/modules/feeds/routes.js:427-445 | A label that is neither a stop word nor a breadcrumb comes back unchanged. |
| `Titles.ConvertPathToTitle` | server/dist/modules/feeds/routes.js:506-519 | The path label is never empty, and outside the dictionary it has no slash. |
| `Titles.TwoSegmentPatternTitle` | server/dist/modules/feeds/routes.js:347 | A two-segment pattern is never a dictionary key, so its label is the slash-free pattern. |
| `Titles.ExtractClusterTitle` | server/dist/modules/feeds/routes.js:412-425 | The label throws exactly when the first link's `a[href="X"]` selector does not parse. Otherwise it has at most 50 characters, is the placeholder for no links, and is non-empty when the first link has text. |
| `Titles.PlainHrefTitle` | server/dist/modules/feeds/routes.js:412-425 | When the selector parser reads a plain `href` literally, a cluster whose first `href` is plain always gets a label, and a section heading of 3 to 49 characters around the anchors with that `href` is used. |
| `Titles.ElementXPath` | server/dist/modules/feeds/routes.js:406-411 | The XPath is the lower-cased tag (or `unknown`), then `.` and the first class name when there is a class. |
| `Titles.FromCrumbSelectors` | server/dist/modules/feeds/routes.js:225-233 | A breadcrumb-selector title is trimmed and has 3 to 49 characters. |
| `Titles.FromBodyCrumbs` | server/dist/modules/feeds/routes.js:235-250 | A body-text breadcrumb title is trimmed and has 3 to 49 characters. |
| `Titles.FromTitleElement` | server/dist/modules/feeds/routes.js:251-259 | A `<title>`-derived title is trimmed and has 3 to 49 characters. |
| `Titles.ExtractSuggestedTitle` | server/dist/modules/feeds/routes.js:207-267 | The page name throws only when the page URL does not parse. It is a trimmed title of acceptable length, or else the hostname. |
| `Segmentation.Respond` | server/dist/modules/feeds/routes.js:2228-2238 | The answer keeps min(15, n) groups in order, each with its label, first title and at most its first 50 articles; `totalGroups` counts all groups. |
| `Segmentation.FallbackOnce` | server/dist/modules/feeds/routes.js:2207-2226 | The rendering is used only when the static page gave no group, in `auto` mode by the heading segmenter alone; with no rendering there are no groups. |
| `Segmentation.ThrowIsServerError` | server/dist/modules/feeds/routes.js:2177-2243 | The answer is a server error exactly when a segmenter the mode runs, or the page-name extraction, throws; the segmenters' throws include the unparsable `a[href="X"]` selectors. |
| `Segmentation.RunSound` | server/dist/modules/feeds/routes.js:2179-2183 | Each segmenter's groups have at least two articles on the page's host, and heading groups have distinct links. |
| `Segmentation.MergeWellFormed` | server/dist/modules/feeds/routes.js:2192 | The merge keeps every article on the page's host and gives groups of two or more distinct links. |
| `Segmentation.FinalGroupsWellFormed` | server/dist/modules/feeds/routes.js:2177-2226 | In every mode the final groups have two or more same-host articles, and in `auto`/`headings` mode distinct links. |
| `Segmentation.RespondWellFormed` | server/dist/modules/feeds/routes.js:2228-2232 | The cuts to 15 groups and 50 articles keep those properties. |
| `Segmentation.SegmentWellFormed` | server/dist/modules/feeds/routes.js:2148-2245 | Every answered group has two or more articles on the page's host, and in `auto`/`headings` mode no two share a link. |
| `Segmentation.SegmentStatic` | server/dist/modules/feeds/routes.js:2177-2206 | The mode dispatch as written gives the specified static groups. |
| `Segmentation.SegmentSnapshot` | server/dist/modules/feeds/routes.js:2209-2225 | The fallback inside its `try` gives the specified groups, or none on a throw. |
| `Segmentation.Answer` | server/dist/modules/feeds/routes.js:2207-2238 | The fallback and formatting as written give the specified answer. |
| `Segmentation.HandleSegmentation` | server/dist/modules/feeds/routes.js:2157-2243 | The handler after the fetch as written gives the specified answer. |
| `BuildRss.SafeTitle` | server/dist/modules/feeds/routes.js:2260 | The feed title has at most 180 characters and no line breaks or tabs. |
| `BuildRss.FilteredSound` | server/dist/modules/feeds/routes.js:2270-2296 | At most fifty filtered articles with distinct links, each a normalized submitted article on the page's host. |
| `BuildRss.FilteredComplete` | server/dist/modules/feeds/routes.js:2270-2296 | Below the cap of fifty, every parseable same-host article's link is kept. |
| `BuildRss.AbsoluteLinkKept` | server/dist/modules/feeds/routes.js:2272-2296 | A link already absolute and on the host is never dropped below the cap. |
| `BuildRss.ItemTitle` | server/dist/modules/feeds/routes.js:2308 | An item title is a non-empty prefix of at most 300 characters, or `无标题` for an empty title. |
| `BuildRss.BuildFeedSpec` | server/dist/modules/feeds/routes.js:2247-2326 | A feed is created exactly when the URL parses, the user id is present and non-empty, the user exists and some article survives, each error case otherwise. It holds at most fifty inserted items with titles and pairwise distinct links, each the link of a filtered article on the page's host. |
| `BuildRss.FeedItemsSpec` | server/dist/modules/feeds/routes.js:2290-2319 | The items inserted from articles with distinct links have distinct links, each an article's link. |
| `BuildRss.CreateItems` | server/dist/modules/feeds/routes.js:2303-2319 | The insert loop stores the accepted items in order and counts them. |
| `BuildRss.BuildRssFeed` | server/dist/modules/feeds/routes.js:2247-2326 | The handler as written gives the specified result. |
| `ApiKeys.FindActive` | server/src/modules/external/external-api-service.ts:207-214 | The lookup finds an active row with the id, and finds nothing exactly when there is none. |
| `ApiKeys.FindActiveUnique` | server/src/modules/external/external-api-service.ts:207-214 | With unique ids, the lookup finds the active row that has the id. |
| `ApiKeys.Remaining` | server/src/modules/external/external-api-service.ts:224 | The remaining quota is `max(0, limit - used)`: never negative. |
| `ApiKeys.Limit` | server/src/modules/external/external-api-service.ts:201-236 | `remaining` is never negative. `allowed` holds exactly when `remaining > 0`. An unknown or inactive key gives `(false, 0)`. |
| `ApiKeys.LimitOfActiveKey` | server/src/modules/external/external-api-service.ts:223-224 | For an active key the check reports `limit - used` (or 0), and allows exactly when `used < limit`. |
| `ApiKeys.Incremented` | server/src/modules/external/external-api-service.ts:281-287 | A successful use adds exactly 1 to `used_count` of the rows with that id. Those rows also get a new `updated_at`, and nothing else changes. |
| `ApiKeys.UseConsumesQuota` | server/src/modules/external/external-api-service.ts:281-287 | A use lowers that key's remaining quota by one (down to 0) and leaves every other key's check unchanged. |
| `ApiKeys.Deactivated` | server/src/modules/external/external-api-service.ts:322-328 | Deleting switches off exactly the row with that id and user, keeps it in the table, and changes nothing else. |
| `ApiKeys.RowCountSpec` | server/src/modules/external/external-api-service.ts:329 | The UPDATE's row count is positive exactly when a row with that id belongs to that user. |
| `ApiKeys.DeleteRevokesQuota` | server/src/modules/external/external-api-service.ts:320-331 | After a delete the key's check answers `(false, 0)`. |
| `ApiKeys.UserApiKeysSorted` | server/src/modules/external/external-api-service.ts:180-185 | The listing is newest first and has one entry per active key of the user. |
| `ApiKeys.UserApiKeysSound` | server/src/modules/external/external-api-service.ts:180-191 | Every listed key is an active key of the user with its secret replaced by `***`. |
| `ApiKeys.UserApiKeysComplete` | server/src/modules/external/external-api-service.ts:180-191 | Every active key of the user is listed, masked. |
| `ApiKeys.DeletedKeyUnlisted` | server/src/modules/external/external-api-service.ts:322-328 | After a delete the key is no longer in its owner's listing. |
| `ApiKeys.DeleteKeepsOtherUsers` | server/src/modules/external/external-api-service.ts:322-328 | A delete leaves every other user's listing as it was. |
| `KeyCodec.Utf8RoundTrip` | server/src/modules/external/external-api-service.ts:433 | UTF-8 decoding undoes UTF-8 encoding. |
| `KeyCodec.Base64EncodeAlphabet` | server/src/modules/external/external-api-service.ts:425 | Every character of the base64 output is in the alphabet of section 4 of RFC 4648, except `=`, which occurs only in the last two places. |
| `KeyCodec.Base64RoundTrip` | server/src/modules/external/external-api-service.ts:423-434 | Base64 decoding undoes base64 encoding. |
| `KeyCodec.EncryptApiKey` | server/src/modules/external/external-api-service.ts:423-426 | The stored key is padded base64: a multiple of 4 long, with only alphabet characters and trailing `=`. |
| `KeyCodec.DecryptEncrypt` | server/src/modules/external/external-api-service.ts:423-434 | `decryptApiKey(encryptApiKey(k)) == k`. |
| `UsageStats.QueryRowsTotals` | server/src/modules/external/external-api-service.ts:355-366 | The grouped query rows add up to the number of the user's successful calls since the start, and to their tokens. |
| `UsageStats.TallyMapValue` | server/src/modules/external/external-api-service.ts:370-393 | The fold's map holds, under each key, the sums of that key's rows. |
| `UsageStats.AddRow` | server/src/modules/external/external-api-service.ts:373-393 | One row's update of a tally `Map` and its key order keeps them equal to the fold over the rows so far. |
| `UsageStats.Aggregate` | server/src/modules/external/external-api-service.ts:368-407 | The `forEach`, totals and sort give the specified statistics, whose daily breakdown is the corrected one-entry-per-day version (see Findings). |
| `UsageStats.StatsTotals` | server/src/modules/external/external-api-service.ts:395-396 | Total requests and tokens equal the sums over the rows, and so does the sum over the corrected daily entries. |
| `UsageStats.ByProviderSpec` | server/src/modules/external/external-api-service.ts:386-392 | `by_provider` has one entry per provider with rows, holding that provider's sums. |
| `UsageStats.DailyBreakdownSpec` | server/src/modules/external/external-api-service.ts:370-406 | The corrected daily breakdown is latest first, has one entry per day with rows and no other, and each entry holds that day's sums. |
| `UsageStats.DailyBreakdownAsWrittenSpec` | server/src/modules/external/external-api-service.ts:370-406 | The breakdown as written is latest first, holds one entry per row with that row's day and sums, and still adds up to the row totals. |
| `UsageStats.EntriesSpec` | server/src/modules/external/external-api-service.ts:370-393 | No entry of a grouping Map appears twice, each holds the sums of its key's rows, and every key that occurs has its entry. |
| `UsageStats.ReadOut` | server/src/modules/external/external-api-service.ts:404-406 | Reading out the finished Map in key order gives the specified entries. |
| `UsageStats.SameDayTwoEntries` | server/src/modules/external/external-api-service.ts:374-381 | As written, two providers used on the same day give that day two entries. |
| `UsageStats.SameDayOneEntry` | server/src/modules/external/external-api-service.ts:374-381 | Corrected, the same rows give that day one entry with both rows' sums. |
| `ExternalApi.Validated` | server/src/modules/external/external-api-service.ts:102-118 | A custom provider is never accepted; the others are accepted exactly when their endpoint accepted the key. |
| `ExternalApi.NewKey` | server/src/modules/external/external-api-service.ts:68-83 | A new key row is active, has nothing used, has the given limit, and its stored key decodes to the key given. |
| `ExternalApi.DecryptedApiKey` | server/src/modules/external/external-api-service.ts:297-315 | The decoded key is absent exactly when no active row has the id, and otherwise is the decoding of such a row's stored key. |
| `ExternalApi.Since` | server/src/modules/external/external-api-service.ts:352-353 | The start of the window is not after now for a non-negative number of days. |
| `ExternalApi.ExternalApiService.constructor` | server/src/modules/external/external-api-service.ts:44-46 | The service starts over the given tables, with unique key ids. |
| `ExternalApi.ExternalApiService.AddApiKey` | server/src/modules/external/external-api-service.ts:51-96 | An accepted key is appended encoded and active under a fresh id, which is returned. A refused key changes nothing. |
| `ExternalApi.ExternalApiService.GetUserApiKeys` | server/src/modules/external/external-api-service.ts:178-196 | Returns the user's masked active keys, newest first. |
| `ExternalApi.ExternalApiService.CheckApiKeyLimit` | server/src/modules/external/external-api-service.ts:201-236 | Returns the quota check of the current table. |
| `ExternalApi.ExternalApiService.RecordApiUsage` | server/src/modules/external/external-api-service.ts:250-292 | Appends exactly one usage row, and increments the key's count only on success. Key ids stay unique. |
| `ExternalApi.ExternalApiService.GetDecryptedApiKey` | server/src/modules/external/external-api-service.ts:297-315 | Returns the decoded stored key of the active row with the id, or nothing. |
| `ExternalApi.ExternalApiService.DeleteApiKey` | server/src/modules/external/external-api-service.ts:320-334 | Answers true exactly when a row with that id and user existed, switches that row off, and leaves the usage log alone. |
| `ExternalApi.ExternalApiService.GetUsageStats` | server/src/modules/external/external-api-service.ts:339-407 | Returns the statistics folded from the query over the user's successful calls within `days` of now, with the corrected daily breakdown. |
| `ExternalApi.AddedKeyUsable` | server/src/modules/external/external-api-service.ts:68-83 | A key just added decodes back to the key given and has its whole limit left. |
| `ExternalApi.AddedKeyListed` | server/src/modules/external/external-api-service.ts:180-191 | A key just added shows up, masked, in its owner's listing. |
| `ExternalApi.StatsCountCalls` | server/src/modules/external/external-api-service.ts:355-397 | Total requests equal the number of the user's successful calls since the start, and total tokens their tokens. |
| `ExternalApi.RecordedCallCounted` | server/src/modules/external/external-api-service.ts:263-288 | Recording a call adds one request and its tokens to the user's totals exactly when it succeeded within the window. |

## Left out

- Fetching the page, `iconv` decoding, the `zod` request validation and the HTTP replies other than the modelled answer. These are I/O and library calls; `Segmentation.CharsetFor` keeps only the charset choice.
- Puppeteer rendering. The rendered page is a parameter (`None` when the browser fails).
- `pubDate` and every `new Date()`. The clock is one parameter string per request.
- The WHATWG URL parser and the two regular expressions with capture groups that the code reads (`/^(.+\s*>\s*)+(.+)$/` and the four body breadcrumb patterns). These are parameters of `Env.Runtime`. Every other regular expression is written out.
- String lengths. The model counts code points, while JavaScript counts UTF-16 units. The two differ only for characters outside the Basic Multilingual Plane.
- Floating point. Cluster scores are exact reals, so rounding is left out.
- UsageStats.Aggregate: the daily breakdown it returns is the intended one entry per day, not the entry per query row the service produces (see Findings); `UsageStats.DailyBreakdownAsWrittenSpec` states what the code as written gives.
- ExternalApi.ExternalApiService.GetUsageStats: returns the corrected daily breakdown, not the entry per query row of the code as written (see Findings).
- UsageStats.DailyBreakdownSpec: is about the corrected daily breakdown; the code as written gives one entry per query row (see Findings).
- UsageStats.StatsTotals: its daily-sum clauses are about the corrected daily breakdown; `UsageStats.DailyBreakdownAsWrittenSpec` proves the same sums for the breakdown as written.
- Cheerio's selector grammar. Which `href` values make `a[href="X"]` throw, and which value a parsing selector asks for, is the parameter `hrefSelector` of `Env.Runtime`.
- Collections.SortDesc: the sort is stable, as `Array.prototype.sort` must be since ECMAScript 2019, but its contract does not state that ties keep their input order.
- The Prisma writes of `/webpage-build-rss` are modelled as a parameter: which item inserts the database accepts. The feed row's id is not modelled.
- The other routes of the feeds module (RSS refresh, caches, the AI gateway). They are not part of this model.
- `addApiKey`'s provider checks: they call the provider's network endpoint, and the answer is a parameter. The message texts of its answer are not modelled.
- The database's fresh `id` (`gen_random_uuid()`) and `NOW()` are parameters.
- The `catch` paths of the service, which turn a database failure into a default answer. A database failure is not modelled.
- `checkApiKeyLimit`'s `resetTime`: it is a clock reading.
- `cost_usd` and the cost sums of `getUsageStats`: they are decimals and floating point.
- `parseInt` of the numeric strings node-postgres returns. Counts and sums are integers in the model, and a `NULL` sum is not modelled.
- `DATE(created_at)` and `setDate(getDate() - days)` use fixed 86 400 000 ms days. The database and server time zones and daylight-saving shifts are not modelled.
- The SQL `ORDER BY` of the statistics query is modelled as a stable sort by date. The database's order among rows of the same date is not modelled.
- ApiKeys.UserApiKeys: `ORDER BY created_at DESC` is modelled as a stable sort, so keys created at the same instant keep their table order. The database does not fix the order of such ties, and no contract depends on it.
- Strings with lone surrogates: Dafny's `char` is a Unicode scalar value, so the UTF-8 round trip covers every string the model can hold.
- The remaining code in the external module (the provider calls, routes and key validation) is not part of this model.

## Findings

| source | as written | input that shows it | evidently intended | confidence | as-written member | corrected member |
|---|---|---|---|---|---|---|
| server/src/modules/external/external-api-service.ts:370-383 | `dailyBreakdown` is a `Map` keyed by `row.date`. node-postgres returns each `DATE` as a new `Date` object, and a `Map` compares objects by identity, so every query row opens its own daily entry. | Two providers used on the same day: rows `(gemini_pro, day d, 1 request, 10 tokens)` and `(openai_plus, day d, 2, 20)` give two entries for day `d`. | One entry per day holding the sums of all that day's rows: `(d, 3, 30)`. | medium, not executed | `UsageStats.SameDayTwoEntries` | `UsageStats.SameDayOneEntry` |
