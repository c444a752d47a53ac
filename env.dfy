/** What the segmentation engine takes from its runtime and cannot be written down here:
    the URL parser, the two regular expressions whose capture groups it reads, cheerio's
    parser of the selectors it builds from raw `href` values, and the clock. */
module Env {
  import opened Wrappers
  import opened Urls

  datatype Runtime = Runtime(
    /** `new URL(input, base?)`, `None` for a throw. */
    resolve: Resolver,
    /** `s.match(/^(.+\s*>\s*)+(.+)$/)`: `None` when it does not match, else capture 2. */
    crumbTail: string -> Option<string>,
    /** `bodyText.match(p)`, `p` the `k`-th of the four body breadcrumb patterns
        (routes.js:236-241): `None` when it does not match, else `match[1] || match[2]`,
        `None` again when both are empty. */
    bodyCrumb: (nat, string) -> Option<string>,
    /** The selector `a[href="X"]` built from a raw `href` X (routes.js:360, 417): `None`
        when cheerio's selector parser throws on it (an `X` holding `"`, or ending in a
        backslash), else the attribute value it asks for, which is `X` with its CSS escapes
        resolved. */
    hrefSelector: string -> Option<string>,
    /** `new Date().toISOString()`, the same for every article of one request. */
    now: string)

  /** An `href` with no quote, backslash or line break makes a selector that asks for the
      `href` itself. */
  predicate IsPlainHref(href: string) {
    '"' !in href && '\\' !in href && '\n' !in href && '\r' !in href && '\U{000C}' !in href
  }

  /** The selector parser reads a plain `href` literally. */
  ghost predicate PlainSelectors(rt: Runtime) {
    forall href :: IsPlainHref(href) ==> rt.hrefSelector(href) == Some(href)
  }
}
