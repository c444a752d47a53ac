/** URL helpers of the feeds routes (server/dist/modules/feeds/routes.js:189-206) over the
    WHATWG URL parser, which the model takes as a parameter: `new URL(input, base)` is
    `resolve(input, Some(base))`, `new URL(input)` is `resolve(input, None)`, and `None`
    is the TypeError the constructor throws. */
module Urls {
  import opened Wrappers
  import opened Text
  import opened Collections

  /** The parts of a parsed URL the engine reads. */
  datatype Url = Url(href: string, hostname: string, pathname: string)

  type Resolver = (string, Option<string>) -> Option<Url>

  /** `isSameHost(href, baseUrl)`: both parse and the hostnames agree; a throw reads as false. */
  predicate IsSameHost(resolve: Resolver, href: string, baseUrl: string) {
    match resolve(baseUrl, None)
    case None => false
    case Some(base) =>
      match resolve(href, Some(baseUrl))
      case None => false
      case Some(u) => u.hostname == base.hostname
  }

  /** `normalizeUrl(href, baseUrl)`: the absolute form of `href`, or `''` when it does not parse. */
  function NormalizeUrl(resolve: Resolver, href: string, baseUrl: string): string {
    match resolve(href, Some(baseUrl))
    case None => ""
    case Some(u) => u.href
  }

  /** A link survives `normalizeUrl` followed by `isSameHost` exactly when it resolves against
      the page and the re-parse of its absolute form lands on the page's host — provided that
      re-parsing an absolute form gives the same URL back, as the WHATWG parser does. */
  lemma NormalizeThenSameHost(resolve: Resolver, href: string, baseUrl: string)
    requires resolve(href, Some(baseUrl)).Some?
    requires var u := resolve(href, Some(baseUrl)).value; resolve(u.href, Some(baseUrl)) == Some(u)
    ensures IsSameHost(resolve, NormalizeUrl(resolve, href, baseUrl), baseUrl)
        <==> (resolve(baseUrl, None).Some?
              && resolve(href, Some(baseUrl)).value.hostname == resolve(baseUrl, None).value.hostname)
  {
  }

  /** The quirk behind the cluster and path-pattern segmenters' extra `new URL(fullUrl)`
      throw: an href that does not resolve normalizes to `''`, and `''` resolves against the
      page to a URL on the page's host (the page without its fragment, under WHATWG parsing),
      so it passes the same-host test with an empty absolute form. */
  lemma UnresolvableHrefPassesSameHost(resolve: Resolver, href: string, baseUrl: string)
    requires resolve(href, Some(baseUrl)).None?
    requires resolve(baseUrl, None).Some?
    requires resolve("", Some(baseUrl)).Some?
    requires resolve("", Some(baseUrl)).value.hostname == resolve(baseUrl, None).value.hostname
    ensures NormalizeUrl(resolve, href, baseUrl) == ""
    ensures IsSameHost(resolve, NormalizeUrl(resolve, href, baseUrl), baseUrl)
  {
  }

  /** `pathname.split('/').filter(p => p)`: the non-empty path segments. */
  function PathSegments(pathname: string): (r: seq<string>)
    ensures forall k :: 0 <= k < |r| ==> r[k] != [] && '/' !in r[k]
  {
    var parts := Split(pathname, '/');
    assert forall x :: x in parts ==> '/' !in x;
    var r := Filter(parts, (p: string) => p != []);
    assert forall k :: 0 <= k < |r| ==> r[k] in r;
    r
  }

  /** `pathname.split('/').slice(0, 3).join('/')`: the path up to its third slash. */
  function PathPrefix(pathname: string): (r: string)
    ensures StartsWith(pathname, r)
  {
    JoinSplitPrefix(pathname, '/', |Take(Split(pathname, '/'), 3)|);
    Join(Take(Split(pathname, '/'), 3), '/')
  }

  lemma {:induction false} SplitNoSeparator(s: string, c: char)
    requires c !in s
    ensures Split(s, c) == [s]
  {
    if s != [] {
      SplitNoSeparator(s[1..], c);
      assert [s[0]] + s[1..] == s;
    }
  }

  lemma {:induction false} SplitAround(x: string, c: char, y: string)
    requires c !in x
    ensures Split(x + [c] + y, c) == [x] + Split(y, c)
  {
    if x == [] {
      assert [] + [c] + y == [c] + y;
      assert ([c] + y)[1..] == y;
    } else {
      SplitAround(x[1..], c, y);
      assert (x + [c] + y)[1..] == x[1..] + [c] + y;
      assert [x[0]] + x[1..] == x;
    }
  }

  /** The pieces of `/a/b...` begin with the empty piece, `a` and `b`. */
  lemma SplitTwoSegments(a: string, b: string, rest: string)
    requires '/' !in a && '/' !in b
    requires rest == [] || rest[0] == '/'
    ensures Take(Split("/" + a + "/" + b + rest, '/'), 3) == [[], a, b]
  {
    var p := "/" + a + "/" + b + rest;
    assert p == [] + ['/'] + (a + ['/'] + (b + rest));
    SplitAround([], '/', a + ['/'] + (b + rest));
    SplitAround(a, '/', b + rest);
    if rest == [] {
      assert b + rest == b;
      SplitNoSeparator(b, '/');
    } else {
      assert b + rest == b + ['/'] + rest[1..];
      SplitAround(b, '/', rest[1..]);
    }
    assert Split(p, '/')[..3] == [[], a, b];
  }

  lemma JoinTwoSegments(a: string, b: string)
    ensures Join([[], a, b], '/') == "/" + a + "/" + b
  {
    assert [[], a, b][1..] == [a, b] && [a, b][1..] == [b];
    assert Join([a, b], '/') == a + ['/'] + b;
  }

  /** For a path `/a/b...` the cluster path key is `/a/b`: its first two segments. */
  lemma PathPrefixTwoSegments(a: string, b: string, rest: string)
    requires '/' !in a && '/' !in b
    requires rest == [] || rest[0] == '/'
    ensures PathPrefix("/" + a + "/" + b + rest) == "/" + a + "/" + b
  {
    SplitTwoSegments(a, b, rest);
    JoinTwoSegments(a, b);
  }
}
