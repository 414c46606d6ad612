/** The shapes the console's entity search works with. */
module SearchInterfaces {
  import opened Wrappers

  /** A JSON value, standing for the untyped `data` an item or product may carry. */
  datatype Json =
    | JNull
    | JBool(b: bool)
    | JNumber(n: int)
    | JString(s: string)
    | JArray(items: seq<Json>)
    | JObject(members: seq<(string, Json)>)

  /** The seven kinds of entity an item can be. */
  datatype SearchableEntityType = Bucket | Domain | Image | KubernetesCluster | Linode | NodeBalancer | Volume

  /** The properties of an entity that search looks at. */
  datatype SearchField = Ips | Label | Tags | Type

  /** An item's value: a numeric id or a string key. */
  datatype ItemValue = NumberValue(n: int) | StringValue(s: string)

  /** A normalised entity. (`label` is a Dafny keyword, so the field is `labelText`.) */
  datatype SearchableItem = SearchableItem(
    data: Option<Json>, entityType: SearchableEntityType, labelText: string, value: ItemValue)

  /** A static shortcut to a page; its entity type is free text and its value a path. */
  datatype Product = Product(data: Option<Json>, entityType: string, labelText: string, value: string)

  /** Search results split by entity kind: always all seven lists. */
  datatype SearchResultsByEntity = SearchResultsByEntity(
    buckets: seq<SearchableItem>,
    domains: seq<SearchableItem>,
    images: seq<SearchableItem>,
    kubernetesClusters: seq<SearchableItem>,
    linodes: seq<SearchableItem>,
    nodebalancers: seq<SearchableItem>,
    volumes: seq<SearchableItem>)

  /** The outcome of a search; `products` is absent on the empty query. */
  datatype SearchResults = SearchResults(
    combinedResults: seq<SearchableItem>,
    products: Option<seq<Product>>,
    searchResultsByEntity: SearchResultsByEntity)
}
