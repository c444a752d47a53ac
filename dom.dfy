/** The parsed page as the engine's cheerio queries see it: the elements in document order,
    each with its tag name, its text content, the two attributes the engine reads, and links
    to its parent and to its next element sibling. */
module Dom {
  import opened Wrappers
  import opened Text

  /** One element. `text` is cheerio's `.text()` of it (untrimmed, descendants included).
      `parent` and `next` are indices into the document; a value outside the range that
      the accessors below accept means there is none. */
  datatype Node = Node(tag: string, text: string, href: Option<string>, cls: Option<string>,
                       parent: int, next: int)

  type Document = seq<Node>

  /** `$(e).parent()`: an ancestor always precedes its descendants. */
  function Parent(doc: Document, i: nat): (r: Option<nat>)
    requires i < |doc|
    ensures r.Some? ==> r.value < i
  {
    if 0 <= doc[i].parent < i then Some(doc[i].parent as nat) else None
  }

  /** `$(e).next()`: the next element sibling follows the element and its subtree. */
  function NextSibling(doc: Document, i: nat): (r: Option<nat>)
    requires i < |doc|
    ensures r.Some? ==> i < r.value < |doc|
  {
    if i < doc[i].next < |doc| then Some(doc[i].next as nat) else None
  }

  /** `j` lies strictly inside `w`. */
  predicate IsDescendant(doc: Document, j: nat, w: nat)
    requires j < |doc|
    decreases j
  {
    match Parent(doc, j)
    case None => false
    case Some(p) => p == w || IsDescendant(doc, p, w)
  }

  /** Some strict ancestor of `j` satisfies `sel`: the descendant combinator `X Y`. */
  predicate HasAncestorWhere(doc: Document, j: nat, sel: Node -> bool)
    requires j < |doc|
    decreases j
  {
    match Parent(doc, j)
    case None => false
    case Some(p) => sel(doc[p]) || HasAncestorWhere(doc, p, sel)
  }

  /** `$(e).closest(sel)`: the element itself or its nearest ancestor that satisfies `sel`. */
  function Closest(doc: Document, i: nat, sel: Node -> bool): (r: Option<nat>)
    requires i < |doc|
    ensures r.Some? ==> r.value <= i && sel(doc[r.value])
    ensures r.Some? && r.value < i ==> IsDescendant(doc, i, r.value)
    ensures r.None? ==> !sel(doc[i]) && !HasAncestorWhere(doc, i, sel)
    decreases i
  {
    if sel(doc[i]) then Some(i)
    else
      match Parent(doc, i)
      case None => None
      case Some(p) => Closest(doc, p, sel)
  }

  /** The indices below `n` that satisfy `p`, in increasing order. */
  function IndicesBelow(n: nat, p: nat -> bool): (r: seq<nat>)
    ensures forall k :: 0 <= k < |r| ==> r[k] < n && p(r[k])
    ensures forall k, l :: 0 <= k < l < |r| ==> r[k] < r[l]
    ensures forall j :: 0 <= j < n && p(j) ==> j in r
  {
    if n == 0 then []
    else IndicesBelow(n - 1, p) + (if p(n - 1) then [n - 1] else [])
  }

  /** `$(sel)`: every element satisfying `sel`, in document order. */
  function Matching(doc: Document, sel: Node -> bool): (r: seq<nat>)
    ensures forall k :: 0 <= k < |r| ==> r[k] < |doc| && sel(doc[r[k]])
    ensures forall k, l :: 0 <= k < l < |r| ==> r[k] < r[l]
    ensures forall j :: 0 <= j < |doc| && sel(doc[j]) ==> j in r
  {
    IndicesBelow(|doc|, (j: nat) => j < |doc| && sel(doc[j]))
  }

  /** The selector `a[href]`. */
  predicate IsLink(n: Node) {
    n.tag == "a" && n.href.Some?
  }

  /** The selector `h1, h2, h3`. */
  predicate IsHeadingTag(tag: string) {
    tag == "h1" || tag == "h2" || tag == "h3"
  }

  /** The level of an `h1`..`h3` tag, 3 for anything else: `parseInt(tag.replace(...)) || 3`. */
  function HeadingLevel(tag: string): (r: nat)
    ensures 1 <= r <= 3
    ensures IsHeadingTag(tag) ==> r == (tag[1] as int) - ('0' as int)
  {
    if tag == "h1" then 1 else if tag == "h2" then 2 else 3
  }

  /** `$(w).find('a[href]')`: the links strictly inside `w`, in document order. */
  function LinksUnder(doc: Document, w: nat): (r: seq<nat>)
    requires w < |doc|
    ensures forall k :: 0 <= k < |r| ==> r[k] < |doc| && IsLink(doc[r[k]]) && IsDescendant(doc, r[k], w)
    ensures forall k, l :: 0 <= k < l < |r| ==> r[k] < r[l]
    ensures forall j :: 0 <= j < |doc| && IsLink(doc[j]) && IsDescendant(doc, j, w) ==> j in r
  {
    IndicesBelow(|doc|, (j: nat) => j < |doc| && IsLink(doc[j]) && IsDescendant(doc, j, w))
  }

  /** `.text()` of a selection: the texts of its elements, concatenated. */
  function TextOf(doc: Document, sel: seq<nat>): (r: string)
    requires forall k :: 0 <= k < |sel| ==> sel[k] < |doc|
    ensures sel == [] ==> r == []
  {
    if sel == [] then [] else TextOf(doc, sel[..|sel| - 1]) + doc[sel[|sel| - 1]].text
  }

  /** `.attr(name) || ''` for an optional attribute value. */
  function AttrOrEmpty(a: Option<string>): string {
    a.GetOr([])
  }

  /** `:last-child`: no element sibling follows. */
  predicate IsLastChild(doc: Document, i: nat)
    requires i < |doc|
  {
    NextSibling(doc, i).None?
  }

  /** The class selector `.t`: `t` is one of the white-space separated class names. */
  predicate HasClassName(n: Node, t: string) {
    n.cls.Some? && t in SplitOnSpaceRuns(n.cls.value)
  }

  /** The attribute selector `[class*="sub"]`. */
  predicate ClassContains(n: Node, sub: string) {
    n.cls.Some? && Contains(n.cls.value, sub)
  }
}
