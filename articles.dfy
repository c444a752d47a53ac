/** The records the segmenters produce: an article is a titled link, a group is a title token
    over articles (`titleToken` for clusters and path patterns, `heading` for headings). */
module Articles {
  import opened Collections

  datatype Article = Article(title: string, link: string, pubDate: string)

  datatype Group = Group(titleToken: string, articles: seq<Article>)

  /** A collected anchor of the cluster and path-pattern segmenters. */
  datatype Link = Link(text: string, href: string, fullUrl: string, container: string)

  function LinkSet(arts: seq<Article>): set<string> {
    set a | a in arts :: a.link
  }

  lemma LinkSetSnoc(arts: seq<Article>, a: Article)
    ensures LinkSet(arts + [a]) == LinkSet(arts) + {a.link}
  {
  }

  ghost predicate DistinctLinks(arts: seq<Article>) {
    forall i, j :: 0 <= i < j < |arts| ==> arts[i].link != arts[j].link
  }

  /** The `seen`-set filter: the first article of every link, in order. */
  function DedupByLink(arts: seq<Article>): (r: seq<Article>)
    ensures DistinctLinks(r)
    ensures LinkSet(r) == LinkSet(arts)
    ensures forall a :: a in r ==> a in arts
    ensures |r| <= |arts|
  {
    if arts == [] then []
    else
      var init := arts[..|arts| - 1];
      var a := arts[|arts| - 1];
      var d := DedupByLink(init);
      assert arts == init + [a];
      assert LinkSet(arts) == LinkSet(init) + {a.link};
      if a.link in LinkSet(d) then d
      else
        assert LinkSet(d + [a]) == LinkSet(d) + {a.link};
        d + [a]
  }

  /** An article is kept exactly when no earlier article has its link. */
  lemma {:induction false} DedupByLinkFirst(arts: seq<Article>, i: nat)
    requires i < |arts|
    ensures arts[i] in DedupByLink(arts) <== forall j :: 0 <= j < i ==> arts[j].link != arts[i].link
  {
    if i < |arts| - 1 {
      var init := arts[..|arts| - 1];
      DedupByLinkFirst(init, i);
      assert init[i] == arts[i];
    } else {
      var init := arts[..|arts| - 1];
      if forall j :: 0 <= j < i ==> arts[j].link != arts[i].link {
        assert arts[i].link !in LinkSet(init);
      }
    }
  }

  /** With every link already distinct, nothing is dropped. */
  lemma {:induction false} DedupByLinkDistinct(arts: seq<Article>)
    requires DistinctLinks(arts)
    ensures DedupByLink(arts) == arts
  {
    if arts != [] {
      var init := arts[..|arts| - 1];
      DedupByLinkDistinct(init);
      assert arts[|arts| - 1].link !in LinkSet(init);
      assert arts == init + [arts[|arts| - 1]];
    }
  }
}
