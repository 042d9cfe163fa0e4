/**
 * The dashboard statistics (app/api/stats/route.ts, the body of `GET` after the products are
 * loaded): the overview counts and sums, the category distribution, the top sellers, the stock
 * distribution and the monthly series.
 */
module Stats {
  import opened Seqs
  import opened ProductModel

  // ---------------------------------------------------------------- counts and sums

  /** `products.filter(keep).length`. */
  function Count(ps: seq<Product>, keep: Product -> bool): nat {
    if ps == [] then 0
    else Count(ps[..|ps| - 1], keep) + (if keep(ps[|ps| - 1]) then 1 else 0)
  }

  /** `products.reduce((sum, p) => sum + term(p), 0)`. */
  function Sum(ps: seq<Product>, term: Product -> real): real {
    if ps == [] then 0.0
    else Sum(ps[..|ps| - 1], term) + term(ps[|ps| - 1])
  }

  predicate IsActive(p: Product) { p.isActive }
  predicate IsLowStock(p: Product) { p.stockQuantity <= p.lowStockThreshold }
  predicate IsInStock(p: Product) { p.stockQuantity > p.lowStockThreshold }
  predicate IsOutOfStock(p: Product) { p.stockQuantity == 0.0 }

  function Revenue(p: Product): real { p.price * p.sales }
  function Sales(p: Product): real { p.sales }
  function StockValue(p: Product): real { p.price * p.stockQuantity }

  /** A count is at most the number of products, and counts the products that qualify. */
  lemma {:induction false} CountBounds(ps: seq<Product>, keep: Product -> bool)
    ensures Count(ps, keep) <= |ps|
    ensures Count(ps, keep) == 0 <==> forall i :: 0 <= i < |ps| ==> !keep(ps[i])
    ensures Count(ps, keep) == |ps| <==> forall i :: 0 <= i < |ps| ==> keep(ps[i])
  {
    if ps != [] {
      var t := ps[..|ps| - 1];
      CountBounds(t, keep);
      assert forall i :: 0 <= i < |t| ==> t[i] == ps[i];
    }
  }

  /** A test that holds wherever another does counts no more. */
  lemma {:induction false} CountMonotone(ps: seq<Product>, weaker: Product -> bool, stronger: Product -> bool)
    requires forall i :: 0 <= i < |ps| ==> stronger(ps[i]) ==> weaker(ps[i])
    ensures Count(ps, stronger) <= Count(ps, weaker)
  {
    if ps != [] {
      var t := ps[..|ps| - 1];
      assert forall i :: 0 <= i < |t| ==> t[i] == ps[i];
      CountMonotone(t, weaker, stronger);
    }
  }

  /** Two complementary tests split the products between them. */
  lemma {:induction false} CountComplement(ps: seq<Product>, keep: Product -> bool, other: Product -> bool)
    requires forall i :: 0 <= i < |ps| ==> (keep(ps[i]) <==> !other(ps[i]))
    ensures Count(ps, keep) + Count(ps, other) == |ps|
  {
    if ps != [] {
      var t := ps[..|ps| - 1];
      assert forall i :: 0 <= i < |t| ==> t[i] == ps[i];
      CountComplement(t, keep, other);
    }
  }

  /** A sum of terms that are at least 0 is at least 0. */
  lemma {:induction false} SumNonNegative(ps: seq<Product>, term: Product -> real)
    requires forall i :: 0 <= i < |ps| ==> term(ps[i]) >= 0.0
    ensures Sum(ps, term) >= 0.0
  {
    if ps != [] {
      var t := ps[..|ps| - 1];
      assert forall i :: 0 <= i < |t| ==> t[i] == ps[i];
      SumNonNegative(t, term);
    }
  }

  // ---------------------------------------------------------------- categories

  /** The categories of the products, in product order. */
  function Categories(ps: seq<Product>): (r: seq<string>)
    ensures |r| == |ps| && forall i :: 0 <= i < |ps| ==> r[i] == ps[i].category
  {
    seq(|ps|, i requires 0 <= i < |ps| => ps[i].category)
  }

  /** The number of products in category `c`. */
  function CategoryCount(ps: seq<Product>, c: string): nat {
    if ps == [] then 0
    else CategoryCount(ps[..|ps| - 1], c) + (if ps[|ps| - 1].category == c then 1 else 0)
  }

  datatype CategoryEntry = CategoryEntry(name: string, value: nat)

  /** `categoryData`: one entry per category, in the order the categories first occur, with its count. */
  function CategoryData(ps: seq<Product>): seq<CategoryEntry> {
    var names := Distinct(Categories(ps));
    seq(|names|, k requires 0 <= k < |names| => CategoryEntry(names[k], CategoryCount(ps, names[k])))
  }

  function EntryNames(es: seq<CategoryEntry>): seq<string> {
    seq(|es|, k requires 0 <= k < |es| => es[k].name)
  }

  function TotalValue(es: seq<CategoryEntry>): nat {
    if es == [] then 0 else TotalValue(es[..|es| - 1]) + es[|es| - 1].value
  }

  lemma CategoriesSnoc(ps: seq<Product>, p: Product)
    ensures Categories(ps + [p]) == Categories(ps) + [p.category]
  {
  }

  /** A category occurs among the products exactly when its count is positive. */
  lemma {:induction false} CategoryCountPositive(ps: seq<Product>, c: string)
    ensures CategoryCount(ps, c) > 0 <==> c in Categories(ps)
  {
    if ps != [] {
      var t := ps[..|ps| - 1];
      assert ps == t + [ps[|ps| - 1]];
      CategoriesSnoc(t, ps[|ps| - 1]);
      CategoryCountPositive(t, c);
    }
  }

  /** Summing the counts of distinct names after one more product adds one exactly when its category is named. */
  lemma {:induction false} CountsSnoc(names: seq<string>, ps: seq<Product>, p: Product)
    requires NoDuplicates(names)
    ensures TotalCounts(names, ps + [p]) == TotalCounts(names, ps) + (if p.category in names then 1 else 0)
  {
    if names != [] {
      var init := names[..|names| - 1];
      assert (ps + [p])[..|ps|] == ps;
      CountsSnoc(init, ps, p);
      assert names == init + [names[|names| - 1]];
    }
  }

  /** The counts of the names in `names`, added up. */
  function TotalCounts(names: seq<string>, ps: seq<Product>): nat {
    if names == [] then 0 else TotalCounts(names[..|names| - 1], ps) + CategoryCount(ps, names[|names| - 1])
  }

  /** Every product lies in exactly one listed category, so the counts add up to the number of products. */
  lemma {:induction false} CountsAddUp(ps: seq<Product>)
    ensures TotalCounts(Distinct(Categories(ps)), ps) == |ps|
  {
    if ps != [] {
      var t, p := ps[..|ps| - 1], ps[|ps| - 1];
      assert ps == t + [p];
      CategoriesSnoc(t, p);
      var d := Distinct(Categories(t));
      CountsAddUp(t);
      CountsSnoc(d, t, p);
      if p.category !in d {
        assert Distinct(Categories(ps)) == d + [p.category];
        DistinctMembers(Categories(t), p.category);
        assert p.category !in Categories(t);
        CategoryCountPositive(t, p.category);
        assert (d + [p.category])[..|d|] == d;
      }
    }
  }

  lemma TotalValueMatchesCounts(ps: seq<Product>, names: seq<string>)
    requires forall k :: 0 <= k < |names| ==> names[k] in Distinct(Categories(ps))
    ensures var es := seq(|names|, k requires 0 <= k < |names| => CategoryEntry(names[k], CategoryCount(ps, names[k])));
      TotalValue(es) == TotalCounts(names, ps)
    decreases |names|
  {
    if names != [] {
      var init := names[..|names| - 1];
      TotalValueMatchesCounts(ps, init);
      var es := seq(|names|, k requires 0 <= k < |names| => CategoryEntry(names[k], CategoryCount(ps, names[k])));
      var ei := seq(|init|, k requires 0 <= k < |init| => CategoryEntry(init[k], CategoryCount(ps, init[k])));
      assert es[..|es| - 1] == ei;
    }
  }

  /** `categoryData` names every category once, in first-seen order, and every product's category is named. */
  lemma CategoryDataNames(ps: seq<Product>)
    ensures EntryNames(CategoryData(ps)) == Distinct(Categories(ps))
    ensures NoDuplicates(EntryNames(CategoryData(ps)))
    ensures forall i :: 0 <= i < |ps| ==> ps[i].category in EntryNames(CategoryData(ps))
    ensures forall k, l :: 0 <= k < l < |CategoryData(ps)| ==>
      FirstIndex(Categories(ps), CategoryData(ps)[k].name) < FirstIndex(Categories(ps), CategoryData(ps)[l].name)
  {
    var names := Distinct(Categories(ps));
    DataEntries(ps);
    forall k, l | 0 <= k < l < |names|
      ensures FirstIndex(Categories(ps), names[k]) < FirstIndex(Categories(ps), names[l])
    {
      DistinctFirstSeen(Categories(ps), k, l);
    }
    forall i | 0 <= i < |ps| ensures ps[i].category in names {
      DistinctMembers(Categories(ps), ps[i].category);
      assert Categories(ps)[i] == ps[i].category;
    }
  }

  /** Each entry of `categoryData` counts the products of its category, and that count is positive. */
  lemma CategoryDataCounts(ps: seq<Product>)
    ensures forall k :: 0 <= k < |CategoryData(ps)| ==>
      CategoryData(ps)[k].value == CategoryCount(ps, CategoryData(ps)[k].name) && CategoryData(ps)[k].value > 0
  {
    var names := Distinct(Categories(ps));
    DataEntries(ps);
    forall k | 0 <= k < |names| ensures CategoryCount(ps, names[k]) > 0 {
      CategoryCountPositive(ps, names[k]);
    }
  }

  /** The counts of `categoryData` add up to the number of products. */
  lemma CategoryDataTotal(ps: seq<Product>)
    ensures TotalValue(CategoryData(ps)) == |ps|
  {
    TotalValueMatchesCounts(ps, Distinct(Categories(ps)));
    CountsAddUp(ps);
  }

  /** The entries of `categoryData`, one per distinct category, by position. */
  lemma DataEntries(ps: seq<Product>)
    ensures var names, data := Distinct(Categories(ps)), CategoryData(ps);
      && |data| == |names| && EntryNames(data) == names
      && forall k :: 0 <= k < |data| ==> data[k] == CategoryEntry(names[k], CategoryCount(ps, names[k]))
  {
    var names, data := Distinct(Categories(ps)), CategoryData(ps);
    assert EntryNames(data) == names;
  }

  lemma DistinctSnoc(s: seq<string>, x: string)
    ensures Distinct(s + [x]) == if x in Distinct(s) then Distinct(s) else Distinct(s) + [x]
  {
    assert (s + [x])[..|s|] == s;
  }

  lemma CategoryCountSnoc(ps: seq<Product>, p: Product, c: string)
    ensures CategoryCount(ps + [p], c) == CategoryCount(ps, c) + (if p.category == c then 1 else 0)
  {
    assert (ps + [p])[..|ps|] == ps;
  }

  /** The loop's state after `seen`: the keys met so far, in order, each with its count. */
  ghost predicate Tally(seen: seq<Product>, keys: seq<string>, counts: map<string, nat>) {
    && keys == Distinct(Categories(seen))
    && (forall c :: c in counts <==> c in keys)
    && (forall k :: 0 <= k < |keys| ==> counts[keys[k]] == CategoryCount(seen, keys[k]))
  }

  /** One turn of the loop on a category already met: its count goes up by one. */
  lemma TallyKnown(seen: seq<Product>, p: Product, keys: seq<string>, counts: map<string, nat>)
    requires Tally(seen, keys, counts) && p.category in counts
    ensures Tally(seen + [p], keys, counts[p.category := counts[p.category] + 1])
  {
    var updated := counts[p.category := counts[p.category] + 1];
    KnownKeys(seen, p, keys);
    KnownCounts(seen, p, keys, counts, updated);
  }

  lemma KnownKeys(seen: seq<Product>, p: Product, keys: seq<string>)
    requires keys == Distinct(Categories(seen)) && p.category in keys
    ensures keys == Distinct(Categories(seen + [p]))
  {
    CategoriesSnoc(seen, p);
    DistinctSnoc(Categories(seen), p.category);
  }

  lemma KnownCounts(seen: seq<Product>, p: Product, keys: seq<string>, counts: map<string, nat>, updated: map<string, nat>)
    requires Tally(seen, keys, counts) && p.category in counts
    requires updated == counts[p.category := counts[p.category] + 1]
    ensures forall c :: c in updated <==> c in keys
    ensures forall k :: 0 <= k < |keys| ==> updated[keys[k]] == CategoryCount(seen + [p], keys[k])
  {
    forall k | 0 <= k < |keys| ensures updated[keys[k]] == CategoryCount(seen + [p], keys[k]) {
      CategoryCountSnoc(seen, p, keys[k]);
    }
  }

  /** One turn of the loop on a new category: it is appended to the keys with count one. */
  lemma TallyNew(seen: seq<Product>, p: Product, keys: seq<string>, counts: map<string, nat>)
    requires Tally(seen, keys, counts) && p.category !in counts
    ensures Tally(seen + [p], keys + [p.category], counts[p.category := 1])
  {
    var x := p.category;
    CategoriesSnoc(seen, p);
    DistinctSnoc(Categories(seen), x);
    DistinctMembers(Categories(seen), x);
    NewCounts(seen, p, keys, counts);
  }

  lemma NewCounts(seen: seq<Product>, p: Product, keys: seq<string>, counts: map<string, nat>)
    requires p.category !in keys && p.category !in Categories(seen)
    requires forall k :: 0 <= k < |keys| ==> keys[k] in counts && counts[keys[k]] == CategoryCount(seen, keys[k])
    ensures var keys', counts' := keys + [p.category], counts[p.category := 1];
      forall k :: 0 <= k < |keys'| ==> counts'[keys'[k]] == CategoryCount(seen + [p], keys'[k])
  {
    var x := p.category;
    var keys', counts' := keys + [x], counts[x := 1];
    forall k | 0 <= k < |keys'| ensures counts'[keys'[k]] == CategoryCount(seen + [p], keys'[k]) {
      CategoryCountSnoc(seen, p, keys'[k]);
      if k < |keys| {
        assert keys'[k] == keys[k] && keys[k] != x;
      } else {
        CategoryCountPositive(seen, x);
      }
    }
  }

  /**
   * The `categoryMap` loop: a key list in insertion order (the iteration order of a `Map`) and a
   * count per key, then one entry per key.
   */
  method CountCategories(products: array<Product>) returns (data: seq<CategoryEntry>)
    ensures data == CategoryData(products[..])
  {
    var keys: seq<string> := [];
    var counts: map<string, nat> := map[];
    var i := 0;
    while i < products.Length
      invariant 0 <= i <= products.Length
      invariant Tally(products[..i], keys, counts)
    {
      var p := products[i];
      assert products[..i + 1] == products[..i] + [p];
      if p.category in counts {
        TallyKnown(products[..i], p, keys, counts);
        counts := counts[p.category := counts[p.category] + 1];
      } else {
        TallyNew(products[..i], p, keys, counts);
        keys := keys + [p.category];
        counts := counts[p.category := 1];
      }
      i := i + 1;
    }
    assert products[..i] == products[..];
    data := seq(|keys|, k requires 0 <= k < |keys| => CategoryEntry(keys[k], counts[keys[k]]));
  }

  // ---------------------------------------------------------------- ordering by sales

  /** Non-increasing in sales. */
  predicate SortedBySales(s: seq<Product>) {
    forall i, j :: 0 <= i < j < |s| ==> s[i].sales >= s[j].sales
  }

  /**
   * Places `x` after every element of `sorted` that sells at least as much: a product later in the
   * input stays behind the earlier ones of equal sales.
   */
  function InsertBySales(sorted: seq<Product>, x: Product): seq<Product> {
    if sorted == [] || sorted[|sorted| - 1].sales >= x.sales then sorted + [x]
    else InsertBySales(sorted[..|sorted| - 1], x) + [sorted[|sorted| - 1]]
  }

  /** `products.sort((a, b) => b.sales - a.sales)`, a stable sort: insertion of each product in turn. */
  function SortBySales(s: seq<Product>): seq<Product> {
    if s == [] then [] else InsertBySales(SortBySales(s[..|s| - 1]), s[|s| - 1])
  }

  lemma {:induction false} InsertKeepsSorted(sorted: seq<Product>, x: Product)
    requires SortedBySales(sorted)
    ensures SortedBySales(InsertBySales(sorted, x))
    ensures |InsertBySales(sorted, x)| == |sorted| + 1
    ensures InsertBySales(sorted, x)[0].sales >= x.sales || InsertBySales(sorted, x)[0] == x
    ensures forall k :: 0 <= k < |InsertBySales(sorted, x)| ==>
      InsertBySales(sorted, x)[k] == x || InsertBySales(sorted, x)[k] in sorted
  {
    if sorted != [] && sorted[|sorted| - 1].sales < x.sales {
      var init, last := sorted[..|sorted| - 1], sorted[|sorted| - 1];
      InsertKeepsSorted(init, x);
      var r := InsertBySales(init, x);
      forall k | 0 <= k < |r| ensures r[k].sales >= last.sales {
        if r[k] != x {
          var m :| 0 <= m < |init| && init[m] == r[k];
          assert sorted[m] == init[m];
        }
      }
    }
  }

  /** The sort orders by sales, non-increasing. */
  lemma {:induction false} SortIsSorted(s: seq<Product>)
    ensures SortedBySales(SortBySales(s)) && |SortBySales(s)| == |s|
  {
    if s != [] {
      SortIsSorted(s[..|s| - 1]);
      InsertKeepsSorted(SortBySales(s[..|s| - 1]), s[|s| - 1]);
    }
  }

  lemma {:induction false} InsertMultiset(sorted: seq<Product>, x: Product)
    ensures multiset(InsertBySales(sorted, x)) == multiset(sorted) + multiset{x}
  {
    if sorted != [] && sorted[|sorted| - 1].sales < x.sales {
      var init := sorted[..|sorted| - 1];
      InsertMultiset(init, x);
      assert sorted == init + [sorted[|sorted| - 1]];
    }
  }

  /** The sort is a permutation. */
  lemma {:induction false} SortIsPermutation(s: seq<Product>)
    ensures multiset(SortBySales(s)) == multiset(s)
  {
    if s != [] {
      SortIsPermutation(s[..|s| - 1]);
      InsertMultiset(SortBySales(s[..|s| - 1]), s[|s| - 1]);
      assert s == s[..|s| - 1] + [s[|s| - 1]];
    }
  }

  /** The products selling exactly `v`, in order. */
  function WithSales(s: seq<Product>, v: real): seq<Product> {
    if s == [] then []
    else WithSales(s[..|s| - 1], v) + (if s[|s| - 1].sales == v then [s[|s| - 1]] else [])
  }

  lemma WithSalesSingle(p: Product, v: real)
    ensures WithSales([p], v) == if p.sales == v then [p] else []
  {
    assert [p][..0] == [];
  }

  lemma {:induction false} WithSalesAppend(a: seq<Product>, b: seq<Product>, v: real)
    ensures WithSales(a + b, v) == WithSales(a, v) + WithSales(b, v)
    decreases |b|
  {
    if b == [] {
      assert a + b == a;
    } else {
      var init, last := b[..|b| - 1], b[|b| - 1];
      assert (a + b)[..|a + b| - 1] == a + init;
      assert (a + b)[|a + b| - 1] == last;
      WithSalesAppend(a, init, v);
    }
  }

  lemma {:induction false} InsertWithSales(sorted: seq<Product>, x: Product, v: real)
    ensures WithSales(InsertBySales(sorted, x), v) ==
      WithSales(sorted, v) + (if x.sales == v then [x] else [])
  {
    var wx := if x.sales == v then [x] else [];
    if sorted != [] && sorted[|sorted| - 1].sales < x.sales {
      var init, last := sorted[..|sorted| - 1], sorted[|sorted| - 1];
      var wl := if last.sales == v then [last] else [];
      assert wx == [] || wl == [];
      assert wx + wl == wl + wx;
      calc {
        WithSales(InsertBySales(sorted, x), v);
        WithSales(InsertBySales(init, x) + [last], v);
        { WithSalesAppend(InsertBySales(init, x), [last], v); WithSalesSingle(last, v); }
        WithSales(InsertBySales(init, x), v) + wl;
        { InsertWithSales(init, x, v); }
        WithSales(init, v) + wx + wl;
        WithSales(init, v) + wl + wx;
        { assert sorted == init + [last]; WithSalesAppend(init, [last], v); WithSalesSingle(last, v); }
        WithSales(sorted, v) + wx;
      }
    } else {
      WithSalesAppend(sorted, [x], v);
      WithSalesSingle(x, v);
    }
  }

  /** The sort is stable: the products of equal sales keep their input order. */
  lemma {:induction false} SortIsStable(s: seq<Product>, v: real)
    ensures WithSales(SortBySales(s), v) == WithSales(s, v)
  {
    if s != [] {
      SortIsStable(s[..|s| - 1], v);
      InsertWithSales(SortBySales(s[..|s| - 1]), s[|s| - 1], v);
    }
  }

  lemma {:induction false} InsertCount(sorted: seq<Product>, x: Product, keep: Product -> bool)
    ensures Count(InsertBySales(sorted, x), keep) == Count(sorted, keep) + (if keep(x) then 1 else 0)
  {
    if sorted != [] && sorted[|sorted| - 1].sales < x.sales {
      var init := sorted[..|sorted| - 1];
      InsertCount(init, x, keep);
      var r := InsertBySales(init, x) + [sorted[|sorted| - 1]];
      assert r[..|r| - 1] == InsertBySales(init, x);
    } else {
      assert (sorted + [x])[..|sorted|] == sorted;
    }
  }

  /** Sorting does not change any count, so the stock buckets computed after it are the input's. */
  lemma {:induction false} SortKeepsCounts(s: seq<Product>, keep: Product -> bool)
    ensures Count(SortBySales(s), keep) == Count(s, keep)
  {
    if s != [] {
      SortKeepsCounts(s[..|s| - 1], keep);
      InsertCount(SortBySales(s[..|s| - 1]), s[|s| - 1], keep);
    }
  }

  /** One step of the inner loop: moving past an element that sells less than `x`. */
  lemma InsertPastSmaller(sorted: seq<Product>, j: nat, x: Product)
    requires 0 < j <= |sorted| && sorted[j - 1].sales < x.sales
    ensures InsertBySales(sorted[..j], x) + sorted[j..] == InsertBySales(sorted[..j - 1], x) + sorted[j - 1..]
  {
    assert sorted[..j][..j - 1] == sorted[..j - 1];
    assert sorted[j - 1..] == [sorted[j - 1]] + sorted[j..];
  }

  /** Where the inner loop stops, `x` goes right there. */
  lemma InsertStops(sorted: seq<Product>, j: nat, x: Product)
    requires j <= |sorted| && (j == 0 || sorted[j - 1].sales >= x.sales)
    ensures InsertBySales(sorted[..j], x) == sorted[..j] + [x]
  {
  }

  /** Moving the hole one place down: the element before it is copied into it. */
  lemma ShiftStep(s: seq<Product>, sorted: seq<Product>, j: nat, h: Product, rest: seq<Product>)
    requires 0 < j <= |sorted| && s == sorted[..j] + [h] + sorted[j..] + rest
    ensures s[j - 1] == sorted[j - 1]
    ensures s[j := s[j - 1]] == sorted[..j - 1] + [sorted[j - 1]] + sorted[j - 1..] + rest
  {
    assert s[j - 1] == sorted[..j][j - 1];
    var t := s[j := s[j - 1]];
    var u := sorted[..j - 1] + [sorted[j - 1]] + sorted[j - 1..] + rest;
    assert |t| == |u|;
    forall k | 0 <= k < |t| ensures t[k] == u[k] {
      if k < j - 1 {
        assert t[k] == sorted[..j][k];
      } else if k == j - 1 || k == j {
      } else if k <= |sorted| {
        assert t[k] == sorted[j..][k - j - 1];
      } else {
        assert t[k] == rest[k - |sorted| - 1];
      }
    }
  }

  /** Filling the hole with `x` leaves the insertion in front of the untouched rest. */
  lemma FillHole(s: seq<Product>, sorted: seq<Product>, j: nat, h: Product, x: Product, rest: seq<Product>)
    requires j <= |sorted| && s == sorted[..j] + [h] + sorted[j..] + rest
    ensures s[j := x][..|sorted| + 1] == sorted[..j] + [x] + sorted[j..]
    ensures s[j := x][|sorted| + 1..] == rest
  {
    var t := s[j := x];
    assert t == (sorted[..j] + [x] + sorted[j..]) + rest;
  }

  /** The inner loop of the insertion sort: moves `a[i]` back into the sorted prefix `a[..i]`. */
  method InsertInPlace(a: array<Product>, i: nat)
    requires i < a.Length
    modifies a
    ensures a[..i + 1] == InsertBySales(old(a[..i]), old(a[i]))
    ensures a[i + 1..] == old(a[i + 1..])
  {
    var x := a[i];
    ghost var sorted := a[..i];
    ghost var rest := a[i + 1..];
    assert a[..] == sorted[..i] + [x] + sorted[i..] + rest;
    assert sorted[..i] == sorted && sorted[i..] == [];
    var j := i;
    while j > 0 && a[j - 1].sales < x.sales
      invariant 0 <= j <= i
      invariant a[..] == sorted[..j] + [a[j]] + sorted[j..] + rest
      invariant InsertBySales(sorted, x) == InsertBySales(sorted[..j], x) + sorted[j..]
    {
      ShiftStep(a[..], sorted, j, a[j], rest);
      InsertPastSmaller(sorted, j, x);
      a[j] := a[j - 1];
      j := j - 1;
    }
    if j > 0 {
      ShiftStep(a[..], sorted, j, a[j], rest);
    }
    InsertStops(sorted, j, x);
    FillHole(a[..], sorted, j, a[j], x, rest);
    a[j] := x;
  }

  /** The in-place sort of the `products` array: a stable insertion sort. */
  method SortBySalesInPlace(a: array<Product>)
    modifies a
    ensures a[..] == SortBySales(old(a[..]))
  {
    ghost var original := a[..];
    var i := 0;
    while i < a.Length
      invariant 0 <= i <= a.Length
      invariant a[..i] == SortBySales(original[..i])
      invariant a[i..] == original[i..]
    {
      ghost var before := a[..];
      InsertInPlace(a, i);
      SortStep(original, before, a[..], i);
      i := i + 1;
    }
    assert a[..i] == a[..];
    assert original[..i] == original;
  }

  /** One turn of the outer loop: the sorted prefix grows by the next element and the rest is untouched. */
  lemma SortStep(original: seq<Product>, before: seq<Product>, after: seq<Product>, i: nat)
    requires i < |original| == |before| == |after|
    requires before[..i] == SortBySales(original[..i]) && before[i..] == original[i..]
    requires after[..i + 1] == InsertBySales(before[..i], before[i]) && after[i + 1..] == before[i + 1..]
    ensures after[..i + 1] == SortBySales(original[..i + 1]) && after[i + 1..] == original[i + 1..]
  {
    assert before[i] == before[i..][0] == original[i..][0] == original[i];
    assert before[i + 1..] == before[i..][1..] == original[i..][1..] == original[i + 1..];
    var o := original[..i + 1];
    assert o[..|o| - 1] == original[..i] && o[|o| - 1] == original[i];
  }

  // ---------------------------------------------------------------- the snapshot

  datatype Overview = Overview(
    totalProducts: nat,
    activeProducts: nat,
    lowStockProducts: nat,
    totalRevenue: real,
    totalSales: real,
    totalValue: real)

  datatype TopProduct = TopProduct(name: string, sales: real, revenue: real)
  datatype StockEntry = StockEntry(name: string, value: nat)
  datatype MonthPoint = MonthPoint(month: string, sales: real, revenue: real)

  datatype Snapshot = Snapshot(
    overview: Overview,
    categoryData: seq<CategoryEntry>,
    topProducts: seq<TopProduct>,
    stockData: seq<StockEntry>,
    monthlySales: seq<MonthPoint>)

  /** How many best sellers are listed. */
  const TopCount: nat := 5

  function OverviewOf(ps: seq<Product>): Overview {
    Overview(|ps|, Count(ps, IsActive), Count(ps, IsLowStock),
      Sum(ps, Revenue), Sum(ps, Sales), Sum(ps, StockValue))
  }

  /** The first five of the sorted products, each with its revenue. */
  function TopOf(sorted: seq<Product>): seq<TopProduct> {
    var n := if |sorted| < TopCount then |sorted| else TopCount;
    seq(n, k requires 0 <= k < n => TopProduct(sorted[k].name, sorted[k].sales, Revenue(sorted[k])))
  }

  /** The three stock buckets, counted on the products in the order they are in at that point. */
  function StockDataOf(ps: seq<Product>, lowStock: nat): seq<StockEntry> {
    [StockEntry("In Stock", Count(ps, IsInStock)),
     StockEntry("Low Stock", lowStock),
     StockEntry("Out of Stock", Count(ps, IsOutOfStock))]
  }

  /** Five fixed months, then December with the live totals. */
  function MonthlyOf(totalSales: real, totalRevenue: real): seq<MonthPoint> {
    [MonthPoint("Jul", 4500.0, 135000.0),
     MonthPoint("Aug", 5200.0, 156000.0),
     MonthPoint("Sep", 4800.0, 144000.0),
     MonthPoint("Oct", 6100.0, 183000.0),
     MonthPoint("Nov", 7300.0, 219000.0),
     MonthPoint("Dec", totalSales, totalRevenue)]
  }

  /** The statistics of the loaded products. The overview and categories come before the sort, the rest after it. */
  function StatsOf(ps: seq<Product>): Snapshot {
    var o := OverviewOf(ps);
    var sorted := SortBySales(ps);
    Snapshot(o, CategoryData(ps), TopOf(sorted), StockDataOf(sorted, o.lowStockProducts),
      MonthlyOf(o.totalSales, o.totalRevenue))
  }

  /** The body of `GET`: the figures in source order, sorting the loaded products in place on the way. */
  method ComputeStats(products: array<Product>) returns (snapshot: Snapshot)
    modifies products
    ensures snapshot == StatsOf(old(products[..]))
    ensures products[..] == SortBySales(old(products[..]))
  {
    var overview := OverviewOf(products[..]);
    var categoryData := CountCategories(products);
    SortBySalesInPlace(products);
    var topProducts := TopOf(products[..]);
    var stockData := StockDataOf(products[..], overview.lowStockProducts);
    snapshot := Snapshot(overview, categoryData, topProducts, stockData,
      MonthlyOf(overview.totalSales, overview.totalRevenue));
  }

  /** No products: every figure is zero and every list but the monthly series is empty. */
  lemma EmptyStats()
    ensures var st := StatsOf([]);
      && st.overview == Overview(0, 0, 0, 0.0, 0.0, 0.0)
      && st.categoryData == [] && st.topProducts == []
      && st.stockData == [StockEntry("In Stock", 0), StockEntry("Low Stock", 0), StockEntry("Out of Stock", 0)]
      && st.monthlySales[5] == MonthPoint("Dec", 0.0, 0.0)
  {
    assert Distinct(Categories([])) == [];
  }

  /** The overview counts what it says, within the number of products. */
  lemma OverviewFacts(ps: seq<Product>)
    ensures var o := StatsOf(ps).overview;
      && o.totalProducts == |ps|
      && o.activeProducts <= |ps| && o.lowStockProducts <= |ps|
      && (o.activeProducts == |ps| <==> forall i :: 0 <= i < |ps| ==> ps[i].isActive)
      && (o.lowStockProducts == 0 <==> forall i :: 0 <= i < |ps| ==> ps[i].stockQuantity > ps[i].lowStockThreshold)
  {
    CountBounds(ps, IsActive);
    CountBounds(ps, IsLowStock);
  }

  /** Stored products have no negative price, sales or stock, so revenue, sales and stock value are not negative. */
  lemma TotalsNonNegative(ps: seq<Product>)
    requires forall i :: 0 <= i < |ps| ==> Valid(ps[i])
    ensures var o := StatsOf(ps).overview;
      o.totalRevenue >= 0.0 && o.totalSales >= 0.0 && o.totalValue >= 0.0
  {
    SumNonNegative(ps, Revenue);
    SumNonNegative(ps, Sales);
    SumNonNegative(ps, StockValue);
  }

  /**
   * The stock buckets: Low Stock is the overview's count, In Stock and Low Stock split the products,
   * and with no negative threshold every out-of-stock product is also counted as low stock.
   */
  lemma StockDataFacts(ps: seq<Product>)
    ensures var sd := StatsOf(ps).stockData;
      && |sd| == 3
      && sd[0].name == "In Stock" && sd[1].name == "Low Stock" && sd[2].name == "Out of Stock"
      && sd[0].value == Count(ps, IsInStock)
      && sd[1].value == StatsOf(ps).overview.lowStockProducts
      && sd[2].value == Count(ps, IsOutOfStock)
      && sd[0].value + sd[1].value == |ps|
    ensures (forall i :: 0 <= i < |ps| ==> ps[i].lowStockThreshold >= 0.0) ==>
      StatsOf(ps).stockData[2].value <= StatsOf(ps).stockData[1].value
  {
    SortKeepsCounts(ps, IsInStock);
    SortKeepsCounts(ps, IsOutOfStock);
    CountComplement(ps, IsInStock, IsLowStock);
    if forall i :: 0 <= i < |ps| ==> ps[i].lowStockThreshold >= 0.0 {
      CountMonotone(ps, IsLowStock, IsOutOfStock);
    }
  }

  /**
   * The best sellers: min(5, n) of them, non-increasing in sales, each the product in that place of
   * the stable sort, with revenue price times sales.
   */
  lemma TopProductsFacts(ps: seq<Product>)
    ensures var top := StatsOf(ps).topProducts;
      && |top| == (if |ps| < TopCount then |ps| else TopCount)
      && (forall i, j :: 0 <= i < j < |top| ==> top[i].sales >= top[j].sales)
      && (forall k :: 0 <= k < |top| ==>
            var p := SortBySales(ps)[k];
            top[k] == TopProduct(p.name, p.sales, p.price * p.sales))
  {
    var sorted := SortBySales(ps);
    SortIsSorted(ps);
    TopOfSorted(sorted);
    assert StatsOf(ps).topProducts == TopOf(sorted);
  }

  lemma TopOfSorted(sorted: seq<Product>)
    requires SortedBySales(sorted)
    ensures var top := TopOf(sorted);
      && |top| == (if |sorted| < TopCount then |sorted| else TopCount)
      && (forall i, j :: 0 <= i < j < |top| ==> top[i].sales >= top[j].sales)
      && (forall k :: 0 <= k < |top| ==> top[k] == TopProduct(sorted[k].name, sorted[k].sales, sorted[k].price * sorted[k].sales))
  {
  }

  /** Six months, the first five fixed, the last the live totals. */
  lemma MonthlyFacts(ps: seq<Product>)
    ensures var m := StatsOf(ps).monthlySales;
      && |m| == 6
      && m[5] == MonthPoint("Dec", StatsOf(ps).overview.totalSales, StatsOf(ps).overview.totalRevenue)
      && (forall k :: 0 <= k < 5 ==> m[k] == MonthlyOf(0.0, 0.0)[k])
  {
  }

  /** One product at price 10 with 3 sold and none in stock (threshold 5). */
  lemma OneProductExample(p: Product)
    requires p.price == 10.0 && p.sales == 3.0 && p.stockQuantity == 0.0 && p.lowStockThreshold == 5.0
    ensures var st := StatsOf([p]);
      && st.overview.totalRevenue == 30.0 && st.overview.totalSales == 3.0
      && st.overview.lowStockProducts == 1
      && st.categoryData == [CategoryEntry(p.category, 1)]
      && st.topProducts == [TopProduct(p.name, 3.0, 30.0)]
      && st.stockData == [StockEntry("In Stock", 0), StockEntry("Low Stock", 1), StockEntry("Out of Stock", 1)]
  {
    assert [p][..0] == [];
    assert Sum([p], Revenue) == Revenue(p);
    assert Sum([p], Sales) == Sum([], Sales) + Sales(p);
    assert Count([p], IsLowStock) == 1 && Count([p], IsInStock) == 0 && Count([p], IsOutOfStock) == 1;
    assert SortBySales([p]) == [p];
    assert CategoryCount([p], p.category) == 1;
    assert Categories([p]) == [p.category];
    assert Distinct([p.category]) == [p.category] by {
      assert [p.category][..0] == [];
    }
  }
}
