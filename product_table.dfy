/**
 * What the product list (components/products/ProductTable.tsx) derives from the loaded products:
 * the stock badge, the category filter's options, the description preview, whether the compare
 * price shows, and the query string of the list request.
 */
module ProductTable {
  import opened Wrappers
  import opened Seqs
  import opened ProductModel
  import Stats

  // ---------------------------------------------------------------- stock badge

  datatype Badge = OutOfStock | LowStock | InStock

  /** Red at zero stock, else yellow at or below the threshold, else green. */
  function StockBadge(p: Product): (b: Badge)
    ensures b == OutOfStock <==> p.stockQuantity == 0.0
    ensures b == LowStock <==> p.stockQuantity != 0.0 && p.stockQuantity <= p.lowStockThreshold
    ensures b == InStock <==> p.stockQuantity > p.lowStockThreshold && p.stockQuantity != 0.0
  {
    if p.stockQuantity == 0.0 then OutOfStock
    else if p.stockQuantity <= p.lowStockThreshold then LowStock
    else InStock
  }

  /**
   * The badge against the dashboard's buckets: a yellow badge is always in the Low Stock bucket, a
   * red one is the Out of Stock bucket, and with a threshold of at least 0 a red badge is counted as
   * Low Stock on the dashboard too, while a stored product is green exactly when it is In Stock.
   */
  lemma BadgeAgainstStats(p: Product)
    ensures StockBadge(p) == LowStock ==> Stats.IsLowStock(p)
    ensures StockBadge(p) == OutOfStock <==> Stats.IsOutOfStock(p)
    ensures StockBadge(p) == OutOfStock && p.lowStockThreshold >= 0.0 ==> Stats.IsLowStock(p)
    ensures Valid(p) ==> (StockBadge(p) == InStock <==> Stats.IsInStock(p))
  {
  }

  /** Zero stock shows red, never yellow, whatever the threshold. */
  lemma ZeroStockIsNeverLow(p: Product)
    requires p.stockQuantity == 0.0
    ensures StockBadge(p) != LowStock && Stats.IsLowStock(p) == (p.lowStockThreshold >= 0.0)
  {
  }

  // ---------------------------------------------------------------- categories

  /** `Array.from(new Set(products?.map(p => p.category) || []))`; nothing while the list is loading. */
  function CategoryOptions(products: Option<seq<Product>>): (r: seq<string>)
    ensures NoDuplicates(r)
    ensures products.None? ==> r == []
  {
    match products
    case None => []
    case Some(ps) => Distinct(Stats.Categories(ps))
  }

  /**
   * The options are the categories of the products, each once, in first-seen order. For the same
   * sequence of products they are the names, in the same order, of the dashboard's category
   * distribution.
   */
  lemma CategoryOptionsFacts(ps: seq<Product>, c: string)
    ensures c in CategoryOptions(Some(ps)) <==> exists i :: 0 <= i < |ps| && ps[i].category == c
    ensures CategoryOptions(Some(ps)) == Stats.EntryNames(Stats.CategoryData(ps))
  {
    DistinctMembers(Stats.Categories(ps), c);
    if c in Stats.Categories(ps) {
      var i :| 0 <= i < |ps| && Stats.Categories(ps)[i] == c;
      assert ps[i].category == c;
    }
    Stats.CategoryDataNames(ps);
  }

  // ---------------------------------------------------------------- row rendering

  /** How many characters of the description the row shows. */
  const PreviewLength: nat := 50

  /** `description.substring(0, 50)` followed by an ellipsis, always. */
  function DescriptionPreview(d: string): (r: string)
    ensures |r| == (if |d| < PreviewLength then |d| else PreviewLength) + 3
    ensures r[..|r| - 3] == d[..|r| - 3] && r[|r| - 3..] == "..."
  {
    var n := if |d| < PreviewLength then |d| else PreviewLength;
    d[..n] + "..."
  }

  /** A short description shows whole, with the ellipsis after it. */
  lemma ShortPreview(d: string)
    requires |d| <= PreviewLength
    ensures DescriptionPreview(d) == d + "..."
  {
  }

  /** The preview shows the start of the description: whatever follows the fiftieth character never shows. */
  lemma PreviewIgnoresTail(d: string, tail: string)
    ensures DescriptionPreview(d)[..|DescriptionPreview(d)| - 3] <= d
    ensures |d| >= PreviewLength ==> DescriptionPreview(d + tail) == DescriptionPreview(d)
  {
    if |d| >= PreviewLength {
      assert (d + tail)[..PreviewLength] == d[..PreviewLength];
    }
  }

  /** The struck-through compare price shows when set and above zero. */
  predicate ShowsCompareAtPrice(compareAtPrice: Option<real>) {
    compareAtPrice.Some? && compareAtPrice.value > 0.0
  }

  /**
   * The compare price shows exactly when it is above zero, so a new product's default of 0 and a
   * missing one are not shown.
   */
  lemma ZeroComparePriceHidden()
    ensures forall v: real :: ShowsCompareAtPrice(Some(v)) <==> v > 0.0
    ensures !ShowsCompareAtPrice(Some(0.0)) && !ShowsCompareAtPrice(None)
  {
  }

  // ---------------------------------------------------------------- the list request

  datatype Param = Param(key: string, value: string)

  /** The `URLSearchParams` of the list request: `search` when non-empty, then `category` when non-empty. */
  function QueryParams(search: string, category: string): (r: seq<Param>)
    ensures |r| <= 2
    ensures forall k :: 0 <= k < |r| ==> r[k].value != ""
  {
    (if search != "" then [Param("search", search)] else []) +
    (if category != "" then [Param("category", category)] else [])
  }

  /** Whether a parameter with this key is sent. */
  predicate Sends(ps: seq<Param>, key: string, value: string) {
    exists k :: 0 <= k < |ps| && ps[k] == Param(key, value)
  }

  /** Each filter is sent exactly when it is set, and the search comes first. */
  lemma QueryParamsFacts(search: string, category: string)
    ensures Sends(QueryParams(search, category), "search", search) <==> search != ""
    ensures Sends(QueryParams(search, category), "category", category) <==> category != ""
    ensures search != "" ==> QueryParams(search, category)[0] == Param("search", search)
    ensures forall k :: 0 <= k < |QueryParams(search, category)| ==>
      QueryParams(search, category)[k].key in {"search", "category"}
  {
    var r := QueryParams(search, category);
    assert "search"[0] != "category"[0];
    if search != "" {
      assert r[0] == Param("search", search);
    }
    if category != "" {
      assert r[|r| - 1] == Param("category", category);
    }
  }
}
