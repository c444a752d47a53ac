/** The regular-expression tests of the segmentation engine, each written out as the
    predicate it decides (server/dist/modules/feeds/routes.js). */
module Patterns {
  import opened Wrappers
  import opened Text

  /** The words of `/首页|上一页|下一页|更多|返回/`. */
  const NavWords: seq<string> := ["首页", "上一页", "下一页", "更多", "返回"]

  /** `/首页|上一页|下一页|更多|返回/.test(s)`: a paging or home word occurs. */
  predicate MentionsNavWord(s: string) {
    ContainsAny(s, NavWords)
  }

  /** `/^(首页|上一页|下一页|更多|返回)$/.test(s)`. */
  predicate IsNavWord(s: string) {
    s in NavWords
  }

  /** The plain alternatives of the stoplist that contain no letters. */
  const StopWords: seq<string> :=
    ["2024年度广东省人力资源和社", "年度", "广东省", "人力资源", "社会保障", "部门", "网站",
     "首页", "导航", "菜单", "链接", "更多", "返回", "上一页", "下一页"]

  /** `第.*页` or `共.*页` over the whole string. */
  predicate IsPageCounter(s: string) {
    |s| >= 2 && (s[0] == '第' || s[0] == '共') && s[|s| - 1] == '页'
    && NoLineTerminator(s[1..|s| - 1])
  }

  /** The stoplist the anchor filter and title inference use
      (`^(zwgk|gsgg|2024年度…|下一页|第.*页|共.*页)$` with the `i` flag). */
  predicate IsStopText(s: string) {
    ToLowerAscii(s) == "zwgk" || ToLowerAscii(s) == "gsgg" || s in StopWords || IsPageCounter(s)
  }

  /** `zwgk\s+gsgg`, case-insensitively, over the whole string. */
  predicate IsZwgkGsgg(s: string) {
    |s| >= 9 && ToLowerAscii(s[..4]) == "zwgk" && ToLowerAscii(s[|s| - 4..]) == "gsgg"
    && AllSpace(s[4..|s| - 4])
  }

  /** The stoplist of `selectBestTitle`, which has the extra alternative `zwgk\s+gsgg`. */
  predicate IsStopLabel(s: string) {
    IsStopText(s) || IsZwgkGsgg(s)
  }

  /** `/^(通知|公告|公示|招聘|拟聘|集中公开招聘|高校毕业生)$/`: a bare category word. */
  predicate IsCategoryWord(s: string) {
    s in ["通知", "公告", "公示", "招聘", "拟聘", "集中公开招聘", "高校毕业生"]
  }

  /** `/^首页$|关于|登录|联系我们/`: a heading that names the site's own chrome. */
  predicate IsSiteChromeHeading(s: string) {
    s == "首页" || ContainsAny(s, ["关于", "登录", "联系我们"])
  }

  /** The words of the heading blacklist. */
  const BlacklistWords: seq<string> :=
    ["上级政府网站", "各省市人社部门网站", "各地市人社部门网站", "业务网站", "友情链接", "网站地图", "联系我们"]

  /** `blacklistHeadingRegex.test(s)`: a heading over a block of outbound or site links. */
  predicate IsBlacklistedHeading(s: string) {
    ContainsAny(s, BlacklistWords)
  }

  /** The recruitment list of the Guangdong human resources site, where only dated
      items are kept. */
  predicate IsRecruitListPage(hostname: string, url: string) {
    Contains(hostname, "hrss.gd.gov.cn") && Contains(url, "/zwgk/sydwzp/")
  }

  /** Where a run of `\s*` starting at `j` ends. */
  function SkipSpaces(s: string, j: nat): (k: nat)
    requires j <= |s|
    ensures j <= k <= |s|
    ensures AllSpace(s[j..k])
    ensures k == |s| || !IsSpace(s[k])
    decreases |s| - j
  {
    if j < |s| && IsSpace(s[j]) then
      var k := SkipSpaces(s, j + 1);
      assert s[j..k] == [s[j]] + s[j + 1..k];
      k
    else j
  }

  /** `20\d{2}` at `i`. */
  predicate YearAt(s: string, i: nat) {
    i + 4 <= |s| && s[i] == '2' && s[i + 1] == '0' && IsDigit(s[i + 2]) && IsDigit(s[i + 3])
  }

  /** `20\d{2}[\-\.年]\s*\d` at `i`; the optional tail of the first alternative
      never decides a `.test`. */
  predicate NumericDateAt(s: string, i: nat) {
    YearAt(s, i) && i + 5 <= |s| && s[i + 4] in "-.年"
    && var j := SkipSpaces(s, i + 5); j < |s| && IsDigit(s[j])
  }

  /** `\s*月` at `j`. */
  predicate MonthMarkAt(s: string, j: nat)
    requires j <= |s|
  {
    var m := SkipSpaces(s, j);
    m < |s| && s[m] == '月'
  }

  /** `20\d{2}\s*年\s*\d{1,2}\s*月` at `i`. Two digits are tried before one, and with two
      present one digit cannot be followed by `\s*月`, so the disjunction is exact. */
  predicate WrittenDateAt(s: string, i: nat) {
    YearAt(s, i)
    && var j := SkipSpaces(s, i + 4);
    j < |s| && s[j] == '年'
    && var k := SkipSpaces(s, j + 1);
    k < |s| && IsDigit(s[k])
    && (MonthMarkAt(s, k + 1) || (k + 1 < |s| && IsDigit(s[k + 1]) && MonthMarkAt(s, k + 2)))
  }

  /** `dateRegex.test(s)` of the heading segmenter. */
  predicate HasDate(s: string) {
    exists i: nat :: i < |s| && (NumericDateAt(s, i) || WrittenDateAt(s, i))
  }

  /** `/20\d{2}[\-\.年]/.test(s)`: the cluster scorer's date hint. */
  predicate HasYearMark(s: string) {
    exists i: nat :: YearAt(s, i) && i + 4 < |s| && s[i + 4] in "-.年"
  }

  /** `/(nav|menu|footer|header|sidebar|breadcrumb|pagination)/i.test(c)`. */
  predicate HasNavClass(c: string) {
    ContainsAny(ToLowerAscii(c), ["nav", "menu", "footer", "header", "sidebar", "breadcrumb", "pagination"])
  }

  /** `/charset=gbk|charset=gb2312/i.test(contentType)`: the page is GBK-encoded. */
  predicate IsGbkCharset(contentType: string) {
    Contains(ToLowerAscii(contentType), "charset=gbk") || Contains(ToLowerAscii(contentType), "charset=gb2312")
  }

  /** `[\-|]` at `q` from which `\s*.*$` can finish: after the separator's white space the
      rest of the string has no line break. */
  predicate SuffixSeparatorAt(s: string, q: nat)
    requires q < |s|
  {
    (s[q] == '-' || s[q] == '|') && NoLineTerminator(s[SkipSpaces(s, q + 1)..])
  }

  /** The first separator at or after `from` where the suffix pattern can finish. */
  function FirstSuffixSeparator(s: string, from: nat): (r: Option<nat>)
    requires from <= |s|
    ensures r.Some? ==> from <= r.value < |s| && SuffixSeparatorAt(s, r.value)
    ensures r.Some? ==> forall q :: from <= q < r.value ==> !SuffixSeparatorAt(s, q)
    ensures r.None? ==> forall q :: from <= q < |s| ==> !SuffixSeparatorAt(s, q)
    decreases |s| - from
  {
    if from == |s| then None
    else if SuffixSeparatorAt(s, from) then Some(from)
    else FirstSuffixSeparator(s, from + 1)
  }

  /** The start of the white-space run that ends at `q`. */
  function BackOverSpaces(s: string, q: nat): (p: nat)
    requires q <= |s|
    ensures p <= q && AllSpace(s[p..q])
    ensures p == 0 || !IsSpace(s[p - 1])
  {
    if q > 0 && IsSpace(s[q - 1]) then
      var p := BackOverSpaces(s, q - 1);
      assert s[p..q] == s[p..q - 1] + [s[q - 1]];
      p
    else q
  }

  /** `title.replace(/\s*[-|]\s*.*$/, '')`: the leftmost match starts at the white space
      before the first separator where the pattern can finish, and everything from there
      is dropped. */
  function StripSiteSuffix(title: string): (r: string)
    ensures StartsWith(title, r)
    ensures r == title <==> FirstSuffixSeparator(title, 0).None?
  {
    match FirstSuffixSeparator(title, 0)
    case None => title
    case Some(q) => title[..BackOverSpaces(title, q)]
  }

  /** The suffix pattern `\s*[-|]\s*.*$` matches from `p`: its leading `\s*` stops at a
      separator where the rest can finish (it cannot stop earlier, since `-` and `|` are
      not white space). */
  predicate SuffixMatchAt(s: string, p: nat)
    requires p <= |s|
  {
    SkipSpaces(s, p) < |s| && SuffixSeparatorAt(s, SkipSpaces(s, p))
  }

  lemma {:induction false} SkipSpacesStopsAt(s: string, p: nat, j: nat)
    requires p <= j < |s| && !IsSpace(s[j])
    ensures SkipSpaces(s, p) <= j
    decreases j - p
  {
    if p < j && IsSpace(s[p]) {
      SkipSpacesStopsAt(s, p + 1, j);
    }
  }

  lemma {:induction false} SkipSpacesAcross(s: string, p: nat, q: nat)
    requires p <= q <= |s| && AllSpace(s[p..q])
    ensures SkipSpaces(s, p) == SkipSpaces(s, q)
    decreases q - p
  {
    if p < q {
      assert IsSpace(s[p..q][0]);
      assert s[p + 1..q] == s[p..q][1..];
      SkipSpacesAcross(s, p + 1, q);
    }
  }

  /** What `StripSiteSuffix` keeps ends exactly where the leftmost match of the pattern
      begins, and it keeps everything when there is no match. */
  lemma StripSiteSuffixLeftmost(title: string)
    ensures forall p :: 0 <= p < |StripSiteSuffix(title)| ==> !SuffixMatchAt(title, p)
    ensures StripSiteSuffix(title) == title ==> !SuffixMatchAt(title, |title|)
    ensures StripSiteSuffix(title) != title ==> SuffixMatchAt(title, |StripSiteSuffix(title)|)
  {
    match FirstSuffixSeparator(title, 0)
    case None =>
      forall p | 0 <= p <= |title| ensures !SuffixMatchAt(title, p) {
      }
    case Some(q) =>
      var b := BackOverSpaces(title, q);
      SkipSpacesAcross(title, b, q);
      assert SkipSpaces(title, q) == q;
      forall p | 0 <= p < b ensures !SuffixMatchAt(title, p) {
        SkipSpacesStopsAt(title, p, b - 1);
      }
  }

  /** `[一-龥a-zA-Z0-9]`: a character a keyword is made of. */
  predicate IsKeywordChar(c: char) {
    ('\U{4E00}' <= c <= '\U{9FA5}') || IsAsciiLetter(c) || IsDigit(c)
  }

  /** `s.replace(/[^一-龥a-zA-Z0-9]/g, ' ')`. */
  function MaskNonKeyword(s: string): (r: string)
    ensures |r| == |s|
    ensures forall i :: 0 <= i < |r| ==> (r[i] == s[i] && IsKeywordChar(s[i])) || (r[i] == ' ' && !IsKeywordChar(s[i]))
  {
    seq(|s|, i requires 0 <= i < |s| => if IsKeywordChar(s[i]) then s[i] else ' ')
  }

  /** `s.replace(/[\n\r\t]+/g, ' ')`: each run of newline, carriage return or tab becomes a space. */
  function CollapseBreaks(s: string): (r: string)
    ensures |r| <= |s|
    ensures forall i :: 0 <= i < |r| ==> r[i] !in "\n\r\t"
    decreases |s|
  {
    if s == [] then []
    else if s[0] in "\n\r\t" then [' '] + CollapseBreaks(DropBreaks(s[1..]))
    else [s[0]] + CollapseBreaks(s[1..])
  }

  function DropBreaks(s: string): (r: string)
    ensures |r| <= |s| && r == s[|s| - |r|..]
    ensures r == [] || r[0] !in "\n\r\t"
  {
    if s != [] && s[0] in "\n\r\t" then DropBreaks(s[1..]) else s
  }
}
