/** `mergeSimilarGroups` (server/dist/modules/feeds/routes.js:382-404): groups with the same
    label are united, each keeping the first article of every link, groups left with fewer
    than two articles are dropped, and the rest are ordered by size, largest first. */
module Merge {
  import opened Collections
  import opened Articles

  /** `group.titleToken || group.heading`: the model keeps every segmenter's label in
      `titleToken`, and that label is never empty (`Clusters.ClusterSegmentsSpec`,
      `PathGroups.PatternSegmentsSpec`, `Headings.HeadingGroupSpec`), so the `heading`
      alternative is never reached. */
  function Label(g: Group): string { g.titleToken }

  /** The articles of several groups, one group after the other. */
  function AllArticles(gs: seq<Group>): seq<Article> {
    if gs == [] then [] else AllArticles(gs[..|gs| - 1]) + gs[|gs| - 1].articles
  }

  lemma AllArticlesSnoc(gs: seq<Group>, g: Group)
    ensures AllArticles(gs + [g]) == AllArticles(gs) + g.articles
  {
    assert (gs + [g])[..|gs|] == gs;
  }

  /** An article occurs in the concatenation exactly when it occurs in one of the groups. */
  lemma {:induction false} AllArticlesMembers(gs: seq<Group>)
    ensures forall a :: a in AllArticles(gs) <==> exists g :: g in gs && a in g.articles
  {
    if gs != [] {
      var init := gs[..|gs| - 1];
      var last := gs[|gs| - 1];
      AllArticlesMembers(init);
      assert gs == init + [last];
      forall a ensures a in AllArticles(gs) <==> exists g :: g in gs && a in g.articles {
        if a in last.articles {
          assert last in gs;
        }
        if exists g :: g in gs && a in g.articles {
          var g :| g in gs && a in g.articles;
          assert g == last || g in init;
        }
      }
    }
  }

  /** The articles merged under label `k`: every article of every group labelled `k`, in
      order, keeping the first article of each link. */
  function MergedArticles(gs: seq<Group>, k: string): seq<Article> {
    DedupByLink(AllArticles(ItemsWithKey(gs, Label, k)))
  }

  /** One merged group per label, in the order the labels first occur. */
  function MergedGroups(gs: seq<Group>): (r: seq<Group>)
    ensures |r| == |KeysInOrder(gs, Label)|
    ensures forall i :: 0 <= i < |r| ==>
      r[i] == Group(KeysInOrder(gs, Label)[i], MergedArticles(gs, KeysInOrder(gs, Label)[i]))
  {
    var ks := KeysInOrder(gs, Label);
    seq(|ks|, i requires 0 <= i < |ks| => Group(ks[i], MergedArticles(gs, ks[i])))
  }

  predicate HasTwoArticles(g: Group) { |g.articles| >= 2 }

  function ArticleCount(g: Group): real { |g.articles| as real }

  /** What `mergeSimilarGroups(allGroups)` returns. */
  function MergeSimilarGroups(gs: seq<Group>): seq<Group> {
    SortDesc(Filter(MergedGroups(gs), HasTwoArticles), ArticleCount)
  }

  /** Every merged group has at least two articles with pairwise distinct links, the groups
      are ordered by article count, largest first, and each merged group is the union of the
      input groups with its label: it holds exactly their links, and only their articles. */
  lemma MergeSimilarGroupsSpec(gs: seq<Group>)
    ensures var r := MergeSimilarGroups(gs);
      && SortedDesc(r, ArticleCount)
      && |r| <= |gs|
      && forall m :: m in r ==>
           && |m.articles| >= 2
           && DistinctLinks(m.articles)
           && (forall a :: a in m.articles ==>
                 exists g :: g in gs && Label(g) == m.titleToken && a in g.articles)
           && (forall l :: l in LinkSet(m.articles) <==>
                 exists g :: g in gs && Label(g) == m.titleToken && l in LinkSet(g.articles))
  {
    var merged := MergedGroups(gs);
    var kept := Filter(merged, HasTwoArticles);
    var r := MergeSimilarGroups(gs);
    var ks := KeysInOrder(gs, Label);
    SortDescMembers(kept, ArticleCount);
    KeysInOrderBound(gs, Label);
    forall m | m in r
      ensures |m.articles| >= 2 && DistinctLinks(m.articles)
      ensures forall a :: a in m.articles ==>
                exists g :: g in gs && Label(g) == m.titleToken && a in g.articles
      ensures forall l :: l in LinkSet(m.articles) <==>
                exists g :: g in gs && Label(g) == m.titleToken && l in LinkSet(g.articles)
    {
      assert m in kept;
      var i :| 0 <= i < |merged| && merged[i] == m;
      var k := ks[i];
      var same := ItemsWithKey(gs, Label, k);
      AllArticlesMembers(same);
      forall a | a in m.articles
        ensures exists g :: g in gs && Label(g) == k && a in g.articles
      {
        var g :| g in same && a in g.articles;
      }
      forall l ensures l in LinkSet(m.articles) <==>
                       exists g :: g in gs && Label(g) == k && l in LinkSet(g.articles)
      {
        if l in LinkSet(m.articles) {
          var a :| a in AllArticles(same) && a.link == l;
          var g :| g in same && a in g.articles;
          assert l in LinkSet(g.articles);
        }
        if exists g :: g in gs && Label(g) == k && l in LinkSet(g.articles) {
          var g :| g in gs && Label(g) == k && l in LinkSet(g.articles);
          var n :| 0 <= n < |gs| && gs[n] == g;
          ItemsWithKeyMember(gs, Label, n);
          var a :| a in g.articles && a.link == l;
          assert a in AllArticles(same);
          assert l in LinkSet(AllArticles(same));
        }
      }
    }
  }

  /** A group whose label's merged articles number two or more is in the result. */
  lemma MergeKeepsLargeGroups(gs: seq<Group>, n: nat)
    requires n < |gs|
    requires |MergedArticles(gs, Label(gs[n]))| >= 2
    ensures Group(Label(gs[n]), MergedArticles(gs, Label(gs[n]))) in MergeSimilarGroups(gs)
  {
    var ks := KeysInOrder(gs, Label);
    var i :| 0 <= i < |ks| && ks[i] == Label(gs[n]);
    assert MergedGroups(gs)[i] in MergedGroups(gs);
    SortDescMembers(Filter(MergedGroups(gs), HasTwoArticles), ArticleCount);
  }

  /** Two label groups are merged into one group (the URL-deduplicated union). */
  lemma MergeTwoSameLabel(g1: Group, g2: Group)
    requires Label(g1) == Label(g2)
    requires |DedupByLink(g1.articles + g2.articles)| >= 2
    ensures MergeSimilarGroups([g1, g2]) == [Group(Label(g1), DedupByLink(g1.articles + g2.articles))]
  {
    var gs := [g1, g2];
    assert gs[..1] == [g1] && [g1][..0] == [];
    assert KeysInOrder([g1], Label) == [Label(g1)];
    assert KeysInOrder(gs, Label) == [Label(g1)];
    assert ItemsWithKey([g1], Label, Label(g1)) == [g1];
    assert ItemsWithKey(gs, Label, Label(g1)) == [g1, g2];
    assert AllArticles([g1, g2]) == g1.articles + g2.articles by {
      assert AllArticles([g1]) == g1.articles;
    }
  }

  // ---------------------------------------------------------------------------
  // The merge as written: a `Map` from label to articles, filled group by group, with a
  // `Set` of the links already present.

  /** The `merged` map after the groups `gs`: its keys in insertion order, and under each the
      articles merged so far. */
  ghost predicate MergeState(gs: seq<Group>, order: seq<string>, merged: map<string, seq<Article>>) {
    && order == KeysInOrder(gs, Label)
    && (forall k :: k in merged <==> k in order)
    && (forall k :: k in merged ==> merged[k] == MergedArticles(gs, k))
  }

  lemma DedupSnoc(xs: seq<Article>, a: Article)
    ensures DedupByLink(xs + [a])
         == if a.link in LinkSet(DedupByLink(xs)) then DedupByLink(xs) else DedupByLink(xs) + [a]
  {
    assert (xs + [a])[..|xs|] == xs;
  }

  /** `group.articles.forEach(...)`: the articles whose link is not yet present are pushed,
      and their links recorded. */
  method PushNewArticles(existing: seq<Article>, ghost base: seq<Article>, articles: seq<Article>)
    returns (r: seq<Article>)
    requires existing == DedupByLink(base)
    ensures r == DedupByLink(base + articles)
  {
    r := existing;
    var existingLinks := LinkSet(existing);
    assert base + articles[..0] == base;
    for j := 0 to |articles|
      invariant r == DedupByLink(base + articles[..j])
      invariant existingLinks == LinkSet(r)
    {
      var article := articles[j];
      PrefixSnoc(articles, j);
      assert base + articles[..j + 1] == (base + articles[..j]) + [article];
      DedupSnoc(base + articles[..j], article);
      if article.link !in existingLinks {
        LinkSetSnoc(r, article);
        r := r + [article];
        existingLinks := existingLinks + {article.link};
      }
    }
    assert articles[..|articles|] == articles;
  }

  lemma MergeStateStep(gs: seq<Group>, g: Group, order: seq<string>, merged: map<string, seq<Article>>,
                       order': seq<string>, merged': map<string, seq<Article>>)
    requires MergeState(gs, order, merged)
    requires order' == if Label(g) in merged then order else order + [Label(g)]
    requires merged' == merged[Label(g) := DedupByLink(AllArticles(ItemsWithKey(gs, Label, Label(g))) + g.articles)]
    ensures MergeState(gs + [g], order', merged')
  {
    var k0 := Label(g);
    KeysInOrderAppend(gs, Label, g);
    assert order' == KeysInOrder(gs + [g], Label);
    assert forall k :: k in merged' <==> k in order';
    assert merged'[k0] == MergedArticles(gs + [g], k0) by {
      AllArticlesSnoc(ItemsWithKey(gs, Label, k0), g);
    }
    forall k | k in merged' && k != k0 ensures merged'[k] == MergedArticles(gs + [g], k) {
      assert merged'[k] == merged[k];
      assert ItemsWithKey(gs + [g], Label, k) == ItemsWithKey(gs, Label, k);
    }
  }

  /** `mergeSimilarGroups(allGroups)` as written. */
  method MergeGroups(allGroups: seq<Group>) returns (r: seq<Group>)
    ensures r == MergeSimilarGroups(allGroups)
  {
    var order: seq<string> := [];
    var merged: map<string, seq<Article>> := map[];
    for i := 0 to |allGroups|
      invariant MergeState(allGroups[..i], order, merged)
    {
      var group := allGroups[i];
      PrefixSnoc(allGroups, i);
      var key := group.titleToken;
      ghost var base := AllArticles(ItemsWithKey(allGroups[..i], Label, key));
      ghost var order0, merged0 := order, merged;
      var existing: seq<Article> := [];
      if key in merged {
        existing := merged[key];
      } else {
        order := order + [key];
        ItemsWithKeyEmpty(allGroups[..i], Label, key);
      }
      existing := PushNewArticles(existing, base, group.articles);
      merged := merged[key := existing];
      MergeStateStep(allGroups[..i], group, order0, merged0, order, merged);
    }
    assert allGroups[..|allGroups|] == allGroups;
    var values := seq(|order|, j requires 0 <= j < |order| => Group(order[j], merged[order[j]]));
    assert values == MergedGroups(allGroups);
    r := SortDesc(Filter(values, HasTwoArticles), ArticleCount);
  }
}
