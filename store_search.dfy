/**
 * The console's search entry point: the empty-query fast path, the exact-label
 * product shortcuts, and the assembly of the searchable entity list from the
 * fetched resources.
 *
 * The matcher (`refinedSearch`), the split by entity kind (`separateResultsByEntity`),
 * its empty value (`emptyResults`) and the per-resource normalisers belong to other
 * files of the console; they are parameters here and nothing is assumed about them.
 */
module StoreSearch {
  import opened Wrappers
  import opened Seqs
  import opened SearchInterfaces

  /** Lower-casing of one character, ASCII letters only. */
  function LowerChar(c: char): char {
    if 'A' <= c <= 'Z' then (c as int + 32) as char else c
  }

  /** Lower-casing of a string, character by character; only ASCII letters are folded. */
  function LowerCase(s: string): (r: string)
    ensures |r| == |s|
    ensures forall i :: 0 <= i < |s| ==> !('A' <= r[i] <= 'Z')
    ensures forall i :: 0 <= i < |s| && !('A' <= s[i] <= 'Z') ==> r[i] == s[i]
    ensures forall i :: 0 <= i < |s| && 'A' <= s[i] <= 'Z' ==> r[i] == (s[i] as int + 32) as char
  {
    seq(|s|, i requires 0 <= i < |s| => LowerChar(s[i]))
  }

  /** Lower-casing twice is lower-casing once. */
  lemma LowerCaseIdempotent(s: string)
    ensures LowerCase(LowerCase(s)) == LowerCase(s)
  {
    var r := LowerCase(s);
    assert forall i :: 0 <= i < |r| ==> LowerCase(r)[i] == r[i];
  }

  const LinodesProduct: Product :=
    Product(Some(JObject([("path", JString("/linodes")), ("searchString", JString(""))])), "Linodes", "Linodes", "/linodes")

  const VolumesProduct: Product :=
    Product(Some(JObject([("path", JString("/volumes")), ("searchString", JString(""))])), "Volumes", "Volumes", "/volumes")

  /** `productsMap`: the page shortcuts, in this order. */
  const ProductsMap: seq<Product> := [LinodesProduct, VolumesProduct]

  /** Whether a product's whole label equals the query, ignoring case. */
  function LabelMatches(query: string): Product -> bool {
    (p: Product) => LowerCase(p.labelText) == LowerCase(query)
  }

  /** The products offered for a non-empty query. */
  function MatchingProducts(query: string): (products: seq<Product>)
    ensures |products| <= |ProductsMap|
    ensures forall p :: p in products ==> p in ProductsMap && LowerCase(p.labelText) == LowerCase(query)
  {
    Filter(ProductsMap, LabelMatches(query))
  }

  /** The search helpers defined elsewhere in the console. */
  datatype SearchHelpers = SearchHelpers(
    refinedSearch: (string, seq<SearchableItem>) -> seq<SearchableItem>,
    separateResultsByEntity: seq<SearchableItem> -> SearchResultsByEntity,
    emptyResults: SearchResultsByEntity)

  /**
   * `search`: only the empty query takes the fast path (no results, no products);
   * any other query, blank ones included, goes to the matcher, whose results are
   * also split by entity kind, and is compared with the product labels.
   */
  function Search(entities: seq<SearchableItem>, inputValue: string, h: SearchHelpers): (r: SearchResults)
    ensures r.products.None? <==> inputValue == ""
    ensures inputValue == "" ==> r.combinedResults == [] && r.searchResultsByEntity == h.emptyResults
    ensures inputValue != "" ==>
              && r.combinedResults == h.refinedSearch(inputValue, entities)
              && r.searchResultsByEntity == h.separateResultsByEntity(r.combinedResults)
              && r.products == Some(MatchingProducts(inputValue))
  {
    if inputValue == "" then
      SearchResults([], None, h.emptyResults)
    else
      var combinedResults := h.refinedSearch(inputValue, entities);
      SearchResults(combinedResults, Some(MatchingProducts(inputValue)), h.separateResultsByEntity(combinedResults))
  }

  /**
   * The products offered are exactly those of `productsMap` whose lower-cased label equals
   * the lower-cased query, in `productsMap` order.
   */
  lemma ProductsExactlyMatching(query: string) returns (idx: seq<nat>)
    ensures Embeds(idx, MatchingProducts(query), ProductsMap)
    ensures forall i :: 0 <= i < |ProductsMap| ==>
              (i in idx <==> LowerCase(ProductsMap[i].labelText) == LowerCase(query))
  {
    idx := FilterPositions(ProductsMap, LabelMatches(query));
  }

  /** No product label matches a query of another length. */
  lemma {:induction false} NoProductOfOtherLength(query: string)
    requires |query| != 7
    ensures MatchingProducts(query) == []
  {
    FilterEmpty(ProductsMap, LabelMatches(query));
  }

  /** "volumes" and "VOLUMES" both give the Volumes shortcut; "vol" gives none. */
  lemma VolumesShortcut()
    ensures MatchingProducts("volumes") == [VolumesProduct]
    ensures MatchingProducts("VOLUMES") == [VolumesProduct]
    ensures MatchingProducts("vol") == []
  {
    assert LowerCase("Linodes")[0] == 'l';
    assert LowerCase("volumes") == LowerCase("VOLUMES") == LowerCase("Volumes");
    assert ProductsMap == [LinodesProduct] + [VolumesProduct] && [LinodesProduct] == [] + [LinodesProduct];
    FilterSnoc([], LinodesProduct, LabelMatches("volumes"));
    FilterSnoc([LinodesProduct], VolumesProduct, LabelMatches("volumes"));
    FilterSnoc([], LinodesProduct, LabelMatches("VOLUMES"));
    FilterSnoc([LinodesProduct], VolumesProduct, LabelMatches("VOLUMES"));
    NoProductOfOtherLength("vol");
  }

  /** A blank query is not trimmed: it goes to the matcher and is offered no product. */
  lemma BlankQueryIsSearched(entities: seq<SearchableItem>, h: SearchHelpers)
    ensures Search(entities, " ", h).combinedResults == h.refinedSearch(" ", entities)
    ensures Search(entities, " ", h).products == Some([])
  {
    NoProductOfOtherLength(" ");
  }

  // ---------------------------------------------------------------------------
  // The `search` state handler

  /** The fetched resources the handler is given, in its parameter order. */
  datatype Sources<B, D, V, C, I, R, N> = Sources(
    buckets: seq<B>,
    domains: seq<D>,
    volumes: seq<V>,
    clusters: seq<C>,
    images: seq<I>,
    regions: seq<R>,
    searchableLinodes: seq<SearchableItem>,
    nodebalancers: seq<N>)

  /** The per-resource normalisers; only the cluster normaliser is given the regions. */
  datatype Normalisers<!B, !D, !V, !C, !I, !R, !N> = Normalisers(
    bucketToSearchableItem: B -> SearchableItem,
    domainToSearchableItem: D -> SearchableItem,
    volumeToSearchableItem: V -> SearchableItem,
    imageToSearchableItem: I -> SearchableItem,
    kubernetesClusterToSearchableItem: (C, seq<R>) -> SearchableItem,
    nodeBalToSearchableItem: N -> SearchableItem)

  /** Where the cluster items start and end in the assembled list. */
  function ClustersStart<B, D, V, C, I, R, N>(s: Sources<B, D, V, C, I, R, N>): nat {
    |s.searchableLinodes| + |s.images| + |s.buckets| + |s.domains| + |s.volumes|
  }

  function ClustersEnd<B, D, V, C, I, R, N>(s: Sources<B, D, V, C, I, R, N>): nat {
    ClustersStart(s) + |s.clusters|
  }

  /**
   * The list searched: linodes, images, buckets, domains, volumes, clusters and
   * nodebalancers, in that order, each normalised element by element.
   */
  function SearchableEntities<B, D, V, C, I, R, N>(s: Sources<B, D, V, C, I, R, N>, n: Normalisers<B, D, V, C, I, R, N>)
    : (r: seq<SearchableItem>)
    ensures |r| == ClustersEnd(s) + |s.nodebalancers|
    ensures r[..ClustersStart(s)] == BeforeClusters(s, n)
    ensures var o := ClustersStart(s);
            forall i :: 0 <= i < |s.clusters| ==> r[o + i] == n.kubernetesClusterToSearchableItem(s.clusters[i], s.regions)
    ensures var o := ClustersEnd(s);
            forall i :: 0 <= i < |s.nodebalancers| ==> r[o + i] == n.nodeBalToSearchableItem(s.nodebalancers[i])
  {
    var searchableClusters := Map(s.clusters, (c: C) => n.kubernetesClusterToSearchableItem(c, s.regions));
    var searchableNodebalancers := Map(s.nodebalancers, n.nodeBalToSearchableItem);
    var r := BeforeClusters(s, n) + searchableClusters + searchableNodebalancers;
    assert r[..ClustersStart(s)] == BeforeClusters(s, n);
    r
  }

  /** The items that come before the clusters: linodes, images, buckets, domains and volumes. */
  function BeforeClusters<B, D, V, C, I, R, N>(s: Sources<B, D, V, C, I, R, N>, n: Normalisers<B, D, V, C, I, R, N>)
    : (r: seq<SearchableItem>)
    ensures |r| == ClustersStart(s)
    ensures forall i :: 0 <= i < |s.searchableLinodes| ==> r[i] == s.searchableLinodes[i]
    ensures var o := |s.searchableLinodes|;
            forall i :: 0 <= i < |s.images| ==> r[o + i] == n.imageToSearchableItem(s.images[i])
    ensures var o := |s.searchableLinodes| + |s.images|;
            forall i :: 0 <= i < |s.buckets| ==> r[o + i] == n.bucketToSearchableItem(s.buckets[i])
    ensures var o := |s.searchableLinodes| + |s.images| + |s.buckets|;
            forall i :: 0 <= i < |s.domains| ==> r[o + i] == n.domainToSearchableItem(s.domains[i])
    ensures var o := ClustersStart(s) - |s.volumes|;
            forall i :: 0 <= i < |s.volumes| ==> r[o + i] == n.volumeToSearchableItem(s.volumes[i])
  {
    var searchableBuckets := Map(s.buckets, n.bucketToSearchableItem);
    var searchableDomains := Map(s.domains, n.domainToSearchableItem);
    var searchableVolumes := Map(s.volumes, n.volumeToSearchableItem);
    var searchableImages := Map(s.images, n.imageToSearchableItem);
    s.searchableLinodes + searchableImages + searchableBuckets + searchableDomains + searchableVolumes
  }

  /** The regions reach the list only through the cluster items: every other item ignores them. */
  lemma RegionsOnlyReachClusters<B, D, V, C, I, R, N>(
    s: Sources<B, D, V, C, I, R, N>, n: Normalisers<B, D, V, C, I, R, N>, regions: seq<R>)
    ensures var r := SearchableEntities(s, n);
            var r' := SearchableEntities(s.(regions := regions), n);
            && |r| == |r'|
            && r[..ClustersStart(s)] == r'[..ClustersStart(s)]
            && r[ClustersEnd(s)..] == r'[ClustersEnd(s)..]
            && (s.clusters == [] ==> r == r')
  {
    var s' := s.(regions := regions);
    var r := SearchableEntities(s, n);
    var r' := SearchableEntities(s', n);
    var pre := BeforeClusters(s, n);
    assert BeforeClusters(s', n) == pre;
    var cl := Map(s.clusters, (c: C) => n.kubernetesClusterToSearchableItem(c, s.regions));
    var cl' := Map(s.clusters, (c: C) => n.kubernetesClusterToSearchableItem(c, regions));
    var nb := Map(s.nodebalancers, n.nodeBalToSearchableItem);
    assert r == pre + cl + nb;
    assert r' == pre + cl' + nb;
    assert |pre| == ClustersStart(s);
    assert r[..ClustersStart(s)] == pre == r'[..ClustersStart(s)];
    assert r[ClustersEnd(s)..] == nb == r'[ClustersEnd(s)..];
    if s.clusters == [] {
      assert cl == cl' == [];
    }
  }

  /** The `search` handler: normalise and assemble the list, search it, return the three fields as they are. */
  function SearchHandler<B, D, V, C, I, R, N>(
    query: string, s: Sources<B, D, V, C, I, R, N>, n: Normalisers<B, D, V, C, I, R, N>, h: SearchHelpers)
    : (r: SearchResults)
    ensures r == Search(SearchableEntities(s, n), query, h)
  {
    var results := Search(SearchableEntities(s, n), query, h);
    SearchResults(results.combinedResults, results.products, results.searchResultsByEntity)
  }

  /** On the empty query the handler returns no results and no products, whatever it was given. */
  lemma EmptyQueryIgnoresSources<B, D, V, C, I, R, N>(
    s: Sources<B, D, V, C, I, R, N>, n: Normalisers<B, D, V, C, I, R, N>, h: SearchHelpers)
    ensures SearchHandler("", s, n, h) == SearchResults([], None, h.emptyResults)
  {
  }
}
