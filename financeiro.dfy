/** The period financial report (src/pages/Financeiro.tsx): totals over the
    completed services of the period, revenue and item counts per product type,
    a per-product summary and its ten best sellers, and the profit margin.
    The services (with their embedded items and joined products) are the input;
    fetching them and computing the period's dates are not part of this model. */
module Financeiro {
  import opened Rows
  import Sorting

  /** The joined `product:products(name, type, cost)`. */
  datatype JoinedProduct = JoinedProduct(name: string, productType: string, cost: Option<int>)

  /** One embedded `service_items` row: quantity, subtotal, unit price, and the joined
      product, absent when the join found none. */
  datatype ReportItem = ReportItem(quantity: int, subtotal: int, unitPrice: int, product: Option<JoinedProduct>)

  /** A `services` row with its embedded items (`items` may be null). */
  datatype ReportService = ReportService(row: ServiceRow, items: Option<seq<ReportItem>>)

  datatype TypeBucket = TypeBucket(count: int, revenue: int)

  datatype ProductSummary = ProductSummary(name: string, productType: string, quantity: int, revenue: int)

  /** A string-keyed object: its entries and its keys in the order they were added. */
  datatype Dict<V> = Dict(keys: seq<string>, entries: map<string, V>)

  ghost predicate WellFormed<V>(d: Dict<V>)
  {
    && (forall i, j :: 0 <= i < j < |d.keys| ==> d.keys[i] != d.keys[j])
    && (forall k :: k in d.entries <==> k in d.keys)
  }

  /** `Object.values(d)`. */
  function Values<V>(d: Dict<V>): (vs: seq<V>)
    requires WellFormed(d)
    ensures |vs| == |d.keys|
    ensures forall i :: 0 <= i < |d.keys| ==> vs[i] == d.entries[d.keys[i]]
  {
    seq(|d.keys|, i requires 0 <= i < |d.keys| => d.entries[d.keys[i]])
  }

  datatype FinancialData = FinancialData(
    totalRevenue: int,
    totalCost: int,
    profit: int,
    totalServices: nat,
    servicesByType: Dict<TypeBucket>,
    topProducts: seq<ProductSummary>)

  /** `item.product?.type || 'other'`: a missing product or an empty type falls back. */
  function TypeKey(item: ReportItem): (k: string)
    ensures k != ""
  {
    if item.product.Some? && item.product.value.productType != "" then item.product.value.productType else "other"
  }

  /** `item.product?.name || 'Desconhecido'`. */
  function NameKey(item: ReportItem): (k: string)
    ensures k != ""
  {
    if item.product.Some? && item.product.value.name != "" then item.product.value.name else "Desconhecido"
  }

  /** The fallback keys stand for a missing product or an empty text, and for
      the product whose own type or name is that very fallback. */
  lemma KeyFallbacks(item: ReportItem)
    ensures TypeKey(item) == "other" <==>
      item.product.None? || item.product.value.productType == "" || item.product.value.productType == "other"
    ensures NameKey(item) == "Desconhecido" <==>
      item.product.None? || item.product.value.name == "" || item.product.value.name == "Desconhecido"
    ensures item.product.Some? && item.product.value.productType != "" ==> TypeKey(item) == item.product.value.productType
    ensures item.product.Some? && item.product.value.name != "" ==> NameKey(item) == item.product.value.name
  {
  }

  /** `(item.product?.cost || 0) * item.quantity`. */
  function ItemCost(item: ReportItem): (c: int)
    ensures item.product.None? || item.product.value.cost.None? ==> c == 0
    ensures item.product.Some? && item.product.value.cost.Some? ==> c == item.product.value.cost.value * item.quantity
    ensures item.quantity == 0 ==> c == 0
    ensures item.quantity >= 0 && (item.product.Some? && item.product.value.cost.Some? ==> item.product.value.cost.value >= 0)
      ==> c >= 0
  {
    var unitCost := if item.product.Some? && item.product.value.cost.Some? then item.product.value.cost.value else 0;
    unitCost * item.quantity
  }

  /** The items of a service; a null `items` contributes none. */
  function ItemsOf(s: ReportService): seq<ReportItem>
  {
    if s.items.Some? then s.items.value else []
  }

  /** Every item of every service, in visiting order. */
  function AllItems(services: seq<ReportService>): seq<ReportItem>
  {
    if services == [] then [] else AllItems(services[..|services| - 1]) + ItemsOf(services[|services| - 1])
  }

  function RowsOf(services: seq<ReportService>): (rows: seq<ServiceRow>)
    ensures |rows| == |services|
    ensures forall i :: 0 <= i < |services| ==> rows[i] == services[i].row
  {
    if services == [] then [] else RowsOf(services[..|services| - 1]) + [services[|services| - 1].row]
  }

  function TotalCost(items: seq<ReportItem>): (c: int)
    ensures items == [] ==> c == 0
    ensures |items| == 1 ==> c == ItemCost(items[0])
  {
    if items == [] then 0 else TotalCost(items[..|items| - 1]) + ItemCost(items[|items| - 1])
  }

  /** The sums of all quantities and of all subtotals. */
  function Totals(items: seq<ReportItem>): TypeBucket
  {
    if items == [] then TypeBucket(0, 0)
    else
      var t := Totals(items[..|items| - 1]);
      TypeBucket(t.count + items[|items| - 1].quantity, t.revenue + items[|items| - 1].subtotal)
  }

  /** The sums of the quantities and subtotals of the items whose type key is `k`. */
  function TotalsOfType(items: seq<ReportItem>, k: string): TypeBucket
  {
    if items == [] then TypeBucket(0, 0)
    else
      var t := TotalsOfType(items[..|items| - 1], k);
      var last := items[|items| - 1];
      if TypeKey(last) == k then TypeBucket(t.count + last.quantity, t.revenue + last.subtotal) else t
  }

  /** One step of the `servicesByType` grouping. */
  function AddToBucket(d: Dict<TypeBucket>, item: ReportItem): Dict<TypeBucket>
  {
    var k := TypeKey(item);
    if k in d.entries then
      Dict(d.keys, d.entries[k := TypeBucket(d.entries[k].count + item.quantity, d.entries[k].revenue + item.subtotal)])
    else
      Dict(d.keys + [k], d.entries[k := TypeBucket(item.quantity, item.subtotal)])
  }

  /** `servicesByType` after visiting `items`. */
  function TypeBuckets(items: seq<ReportItem>): (d: Dict<TypeBucket>)
    ensures forall k :: k in d.keys ==> k in d.entries
  {
    if items == [] then Dict([], map[]) else AddToBucket(TypeBuckets(items[..|items| - 1]), items[|items| - 1])
  }

  /** No type is listed twice among the bucket keys. */
  lemma {:induction false} TypeBucketsWellFormed(items: seq<ReportItem>)
    ensures WellFormed(TypeBuckets(items))
  {
    if items != [] {
      TypeBucketsWellFormed(items[..|items| - 1]);
    }
  }

  /** One step of the `productsSummary` grouping: a name seen for the first time
      takes the type of the item that introduces it. */
  function AddToSummary(d: Dict<ProductSummary>, item: ReportItem): Dict<ProductSummary>
  {
    var k := NameKey(item);
    if k in d.entries then
      var e := d.entries[k];
      Dict(d.keys, d.entries[k := ProductSummary(e.name, e.productType, e.quantity + item.quantity, e.revenue + item.subtotal)])
    else
      Dict(d.keys + [k], d.entries[k := ProductSummary(k, TypeKey(item), item.quantity, item.subtotal)])
  }

  /** `productsSummary` after visiting `items`. */
  function ProductsSummary(items: seq<ReportItem>): (d: Dict<ProductSummary>)
    ensures WellFormed(d)
  {
    if items == [] then Dict([], map[]) else AddToSummary(ProductsSummary(items[..|items| - 1]), items[|items| - 1])
  }

  /** The sort key of `b.revenue - a.revenue`: a higher revenue sorts first. */
  function RevenueRank(p: ProductSummary): int
  {
    -p.revenue
  }

  /** How many products the report lists (`.slice(0, 10)`). */
  const TopLimit: nat := 10

  /** `values.sort((a, b) => b.revenue - a.revenue).slice(0, 10)`. */
  function TopProducts(values: seq<ProductSummary>): (r: seq<ProductSummary>)
    ensures |r| == if |values| < TopLimit then |values| else TopLimit
    ensures forall i, j :: 0 <= i < j < |r| ==> r[i].revenue >= r[j].revenue
    ensures multiset(r) <= multiset(values)
    ensures forall p :: p in r ==> p in values
    ensures forall p, q :: p in values && p !in r && q in r ==> p.revenue <= q.revenue
  {
    TopProductsFacts(values);
    Sorting.Lowest(values, RevenueRank, TopLimit)
  }

  lemma TopProductsFacts(values: seq<ProductSummary>)
    ensures var r := Sorting.Lowest(values, RevenueRank, TopLimit);
      && (forall i, j :: 0 <= i < j < |r| ==> r[i].revenue >= r[j].revenue)
      && multiset(r) <= multiset(values)
      && (forall p :: p in r ==> p in values)
      && (forall p, q :: p in values && p !in r && q in r ==> p.revenue <= q.revenue)
  {
    var r := Sorting.Lowest(values, RevenueRank, TopLimit);
    Sorting.LowestIsLowest(values, RevenueRank, TopLimit);
    forall i, j | 0 <= i < j < |r|
      ensures r[i].revenue >= r[j].revenue
    {
      assert RevenueRank(r[i]) <= RevenueRank(r[j]);
    }
    forall p, q | p in values && p !in r && q in r
      ensures p.revenue <= q.revenue
    {
      assert RevenueRank(q) <= RevenueRank(p);
    }
  }

  lemma AppendNext(visited: seq<ReportItem>, items: seq<ReportItem>, j: nat)
    requires j < |items|
    ensures visited + items[..j] + [items[j]] == visited + items[..j + 1]
  {
    assert items[..j + 1] == items[..j] + [items[j]];
  }

  /** Visiting one more item advances each fold by one step. */
  lemma FoldsStep(items: seq<ReportItem>, item: ReportItem)
    ensures TotalCost(items + [item]) == TotalCost(items) + ItemCost(item)
    ensures TypeBuckets(items + [item]) == AddToBucket(TypeBuckets(items), item)
    ensures ProductsSummary(items + [item]) == AddToSummary(ProductsSummary(items), item)
  {
    assert (items + [item])[..|items|] == items;
  }

  /** The callback run for each item: adds its cost, then counts it in the bucket of
      its type and in the summary entry of its name, creating either when missing. */
  method VisitItem(totalCost: int, servicesByType: Dict<TypeBucket>, productsSummary: Dict<ProductSummary>, item: ReportItem)
    returns (totalCost': int, servicesByType': Dict<TypeBucket>, productsSummary': Dict<ProductSummary>)
    ensures totalCost' == totalCost + ItemCost(item)
    ensures servicesByType' == AddToBucket(servicesByType, item)
    ensures productsSummary' == AddToSummary(productsSummary, item)
  {
    totalCost' := totalCost + ItemCost(item);

    var productType := TypeKey(item);
    servicesByType' := servicesByType;
    if productType !in servicesByType'.entries {
      servicesByType' := Dict(servicesByType'.keys + [productType], servicesByType'.entries[productType := TypeBucket(0, 0)]);
    }
    var bucket := servicesByType'.entries[productType];
    servicesByType' := Dict(servicesByType'.keys,
      servicesByType'.entries[productType := TypeBucket(bucket.count + item.quantity, bucket.revenue + item.subtotal)]);

    var productName := NameKey(item);
    productsSummary' := productsSummary;
    if productName !in productsSummary'.entries {
      productsSummary' := Dict(productsSummary'.keys + [productName],
        productsSummary'.entries[productName := ProductSummary(productName, TypeKey(item), 0, 0)]);
    }
    var entry := productsSummary'.entries[productName];
    productsSummary' := Dict(productsSummary'.keys,
      productsSummary'.entries[productName := ProductSummary(entry.name, entry.productType,
        entry.quantity + item.quantity, entry.revenue + item.subtotal)]);
  }

  /** `service.items.forEach(...)`: visits the items of one service in order,
      continuing the folds over the items visited so far. */
  method VisitItems(totalCost: int, servicesByType: Dict<TypeBucket>, productsSummary: Dict<ProductSummary>,
                    ghost visited: seq<ReportItem>, items: seq<ReportItem>)
    returns (totalCost': int, servicesByType': Dict<TypeBucket>, productsSummary': Dict<ProductSummary>)
    requires totalCost == TotalCost(visited)
    requires servicesByType == TypeBuckets(visited)
    requires productsSummary == ProductsSummary(visited)
    ensures totalCost' == TotalCost(visited + items)
    ensures servicesByType' == TypeBuckets(visited + items)
    ensures productsSummary' == ProductsSummary(visited + items)
  {
    totalCost', servicesByType', productsSummary' := totalCost, servicesByType, productsSummary;
    ghost var done := visited;
    var j := 0;
    while j < |items|
      invariant 0 <= j <= |items|
      invariant done == visited + items[..j]
      invariant totalCost' == TotalCost(done)
      invariant servicesByType' == TypeBuckets(done)
      invariant productsSummary' == ProductsSummary(done)
    {
      FoldsStep(done, items[j]);
      totalCost', servicesByType', productsSummary' := VisitItem(totalCost', servicesByType', productsSummary', items[j]);
      AppendNext(visited, items, j);
      done := done + [items[j]];
      j := j + 1;
    }
    assert items[..|items|] == items;
  }

  /** Visiting one more service adds its amount to the revenue and its items to
      the visited items. */
  lemma ServicesStep(services: seq<ReportService>, i: nat)
    requires i < |services|
    ensures TotalAmount(RowsOf(services[..i + 1])) == TotalAmount(RowsOf(services[..i])) + AmountOrZero(services[i].row)
    ensures AllItems(services[..i + 1]) == AllItems(services[..i]) + ItemsOf(services[i])
  {
    assert services[..i + 1][..i] == services[..i];
    var rows := RowsOf(services[..i + 1]);
    assert rows[..i] == RowsOf(services[..i]);
  }

  /** `fetchFinancialData` once the services are fetched: `None` when the query
      gave no data (the page then keeps its report). */
  method FetchFinancialData(fetched: Option<seq<ReportService>>) returns (data: Option<FinancialData>)
    ensures data.Some? <==> fetched.Some?
    ensures data.Some? ==> data.value.totalRevenue == TotalAmount(RowsOf(fetched.value))
    ensures data.Some? ==> data.value.totalCost == TotalCost(AllItems(fetched.value))
    ensures data.Some? ==> data.value.profit == data.value.totalRevenue - data.value.totalCost
    ensures data.Some? ==> data.value.totalServices == |fetched.value|
    ensures data.Some? ==> data.value.servicesByType == TypeBuckets(AllItems(fetched.value))
    ensures data.Some? ==> data.value.topProducts == TopProducts(Values(ProductsSummary(AllItems(fetched.value))))
  {
    if fetched.None? {
      return None;
    }
    var services := fetched.value;
    var totalRevenue := 0;
    var totalCost := 0;
    var servicesByType: Dict<TypeBucket> := Dict([], map[]);
    var productsSummary: Dict<ProductSummary> := Dict([], map[]);
    var i := 0;
    while i < |services|
      invariant 0 <= i <= |services|
      invariant totalRevenue == TotalAmount(RowsOf(services[..i]))
      invariant totalCost == TotalCost(AllItems(services[..i]))
      invariant servicesByType == TypeBuckets(AllItems(services[..i]))
      invariant productsSummary == ProductsSummary(AllItems(services[..i]))
    {
      var service := services[i];
      ServicesStep(services, i);
      totalRevenue := totalRevenue + AmountOrZero(service.row);
      if service.items.Some? {
        totalCost, servicesByType, productsSummary :=
          VisitItems(totalCost, servicesByType, productsSummary, AllItems(services[..i]), service.items.value);
      } else {
        assert AllItems(services[..i + 1]) == AllItems(services[..i]);
      }
      i := i + 1;
    }
    assert services[..|services|] == services;
    var topProducts := TopProducts(Values(productsSummary));
    data := Some(FinancialData(totalRevenue, totalCost, totalRevenue - totalCost, |services|, servicesByType, topProducts));
  }

  /** The sums of the quantities and subtotals of the items whose name key is `k`. */
  function TotalsOfName(items: seq<ReportItem>, k: string): TypeBucket
  {
    if items == [] then TypeBucket(0, 0)
    else
      var t := TotalsOfName(items[..|items| - 1], k);
      var last := items[|items| - 1];
      if NameKey(last) == k then TypeBucket(t.count + last.quantity, t.revenue + last.subtotal) else t
  }

  /** An item with type key `k` is among `items` exactly when it is among all
      but the last of them, or the last one has that key. */
  lemma TypeKeyStep(items: seq<ReportItem>, front: seq<ReportItem>, k: string)
    requires items != [] && front == items[..|items| - 1]
    ensures (exists i :: 0 <= i < |items| && TypeKey(items[i]) == k) <==>
      (exists i :: 0 <= i < |front| && TypeKey(front[i]) == k) || TypeKey(items[|items| - 1]) == k
  {
    if exists i :: 0 <= i < |items| && TypeKey(items[i]) == k {
      var i :| 0 <= i < |items| && TypeKey(items[i]) == k;
      if i < |front| {
        assert front[i] == items[i];
      }
    }
    if exists i :: 0 <= i < |front| && TypeKey(front[i]) == k {
      var i :| 0 <= i < |front| && TypeKey(front[i]) == k;
      assert items[i] == front[i];
    }
  }

  /** The keys of `servicesByType` are exactly the type keys of the items. */
  lemma {:induction false} TypeBucketsKeys(items: seq<ReportItem>)
    ensures forall k :: k in TypeBuckets(items).entries <==> exists i :: 0 <= i < |items| && TypeKey(items[i]) == k
  {
    if items != [] {
      var front, last := items[..|items| - 1], items[|items| - 1];
      TypeBucketsKeys(front);
      var d := TypeBuckets(items);
      assert d == AddToBucket(TypeBuckets(front), last);
      assert forall k :: k in d.entries <==> k in TypeBuckets(front).entries || k == TypeKey(last);
      forall k
        ensures k in d.entries <==> exists i :: 0 <= i < |items| && TypeKey(items[i]) == k
      {
        TypeKeyStep(items, front, k);
      }
    }
  }

  lemma {:induction false} TotalsOfAbsentType(items: seq<ReportItem>, k: string)
    requires forall i :: 0 <= i < |items| ==> TypeKey(items[i]) != k
    ensures TotalsOfType(items, k) == TypeBucket(0, 0)
  {
    if items != [] {
      TotalsOfAbsentType(items[..|items| - 1], k);
    }
  }

  /** Each bucket of `servicesByType` holds the count and revenue of exactly the
      items of its type, so every item lands in the bucket of its own type only. */
  lemma {:induction false} TypeBucketsContent(items: seq<ReportItem>)
    ensures forall k :: k in TypeBuckets(items).entries ==> TypeBuckets(items).entries[k] == TotalsOfType(items, k)
  {
    if items != [] {
      var front, last := items[..|items| - 1], items[|items| - 1];
      TypeBucketsContent(front);
      TypeBucketsKeys(front);
      var d0 := TypeBuckets(front);
      var d := TypeBuckets(items);
      assert d == AddToBucket(d0, last);
      forall k | k in d.entries
        ensures d.entries[k] == TotalsOfType(items, k)
      {
        if k == TypeKey(last) && k !in d0.entries {
          TotalsOfAbsentType(front, k);
        }
      }
    }
  }

  /** Sums the buckets named by `keys`. */
  function SumBuckets(keys: seq<string>, m: map<string, TypeBucket>): TypeBucket
    requires forall k :: k in keys ==> k in m
  {
    if keys == [] then TypeBucket(0, 0)
    else
      var t := SumBuckets(keys[..|keys| - 1], m);
      var b := m[keys[|keys| - 1]];
      TypeBucket(t.count + b.count, t.revenue + b.revenue)
  }

  predicate Distinct(keys: seq<string>)
  {
    forall i, j :: 0 <= i < j < |keys| ==> keys[i] != keys[j]
  }

  /** Replacing one bucket changes the sum by the difference, when its key is listed once. */
  lemma {:induction false} SumBucketsUpdate(keys: seq<string>, m: map<string, TypeBucket>, k: string, v: TypeBucket)
    requires forall x :: x in keys ==> x in m
    requires Distinct(keys)
    ensures SumBuckets(keys, m[k := v]).count ==
      SumBuckets(keys, m).count + (if k in keys then v.count - m[k].count else 0)
    ensures SumBuckets(keys, m[k := v]).revenue ==
      SumBuckets(keys, m).revenue + (if k in keys then v.revenue - m[k].revenue else 0)
  {
    if keys != [] {
      var front := keys[..|keys| - 1];
      assert forall x :: x in front ==> x in keys;
      SumBucketsUpdate(front, m, k, v);
      if k == keys[|keys| - 1] {
        assert k !in front;
      }
    }
  }

  /** A bucket under a new key adds exactly its own count and revenue to the sum. */
  lemma SumBucketsAppend(keys: seq<string>, m: map<string, TypeBucket>, k: string, v: TypeBucket)
    requires forall x :: x in keys ==> x in m
    requires Distinct(keys) && k !in keys
    ensures forall x :: x in keys + [k] ==> x in m[k := v]
    ensures SumBuckets(keys + [k], m[k := v]) ==
      TypeBucket(SumBuckets(keys, m).count + v.count, SumBuckets(keys, m).revenue + v.revenue)
  {
    var extended := keys + [k];
    assert extended[..|extended| - 1] == keys;
    SumBucketsUpdate(keys, m, k, v);
  }

  /** Adding one item to the buckets adds its quantity and subtotal to their sum. */
  lemma AddToBucketSum(d: Dict<TypeBucket>, item: ReportItem)
    requires WellFormed(d)
    ensures forall x :: x in AddToBucket(d, item).keys ==> x in AddToBucket(d, item).entries
    ensures SumBuckets(AddToBucket(d, item).keys, AddToBucket(d, item).entries) ==
      TypeBucket(SumBuckets(d.keys, d.entries).count + item.quantity, SumBuckets(d.keys, d.entries).revenue + item.subtotal)
  {
    var k := TypeKey(item);
    assert Distinct(d.keys);
    if k in d.entries {
      var b := d.entries[k];
      assert k in d.keys;
      SumBucketsUpdate(d.keys, d.entries, k, TypeBucket(b.count + item.quantity, b.revenue + item.subtotal));
    } else {
      assert k !in d.keys;
      SumBucketsAppend(d.keys, d.entries, k, TypeBucket(item.quantity, item.subtotal));
    }
  }

  /** The bucket sum after one more item is the sum before plus that item. */
  lemma BucketSumStep(items: seq<ReportItem>)
    requires items != []
    ensures var s0 := SumBuckets(TypeBuckets(items[..|items| - 1]).keys, TypeBuckets(items[..|items| - 1]).entries);
      SumBuckets(TypeBuckets(items).keys, TypeBuckets(items).entries) ==
        TypeBucket(s0.count + items[|items| - 1].quantity, s0.revenue + items[|items| - 1].subtotal)
  {
    var front, last := items[..|items| - 1], items[|items| - 1];
    var d0 := TypeBuckets(front);
    assert TypeBuckets(items) == AddToBucket(d0, last);
    TypeBucketsWellFormed(front);
    AddToBucketSum(d0, last);
  }

  /** The bucket counts add up to the total quantity of all items, and the bucket
      revenues to the total of all subtotals: no item is lost or counted twice. */
  lemma {:induction false} BucketTotals(items: seq<ReportItem>)
    ensures SumBuckets(TypeBuckets(items).keys, TypeBuckets(items).entries) == Totals(items)
  {
    if items != [] {
      BucketTotals(items[..|items| - 1]);
      BucketSumStep(items);
    }
  }

  /** An item with name key `k` is among `items` exactly when it is among all
      but the last of them, or the last one has that key. */
  lemma NameKeyStep(items: seq<ReportItem>, front: seq<ReportItem>, k: string)
    requires items != [] && front == items[..|items| - 1]
    ensures (exists i :: 0 <= i < |items| && NameKey(items[i]) == k) <==>
      (exists i :: 0 <= i < |front| && NameKey(front[i]) == k) || NameKey(items[|items| - 1]) == k
  {
    if exists i :: 0 <= i < |items| && NameKey(items[i]) == k {
      var i :| 0 <= i < |items| && NameKey(items[i]) == k;
      if i < |front| {
        assert front[i] == items[i];
      }
    }
    if exists i :: 0 <= i < |front| && NameKey(front[i]) == k {
      var i :| 0 <= i < |front| && NameKey(front[i]) == k;
      assert items[i] == front[i];
    }
  }

  /** The keys of `productsSummary` are exactly the name keys of the items. */
  lemma {:induction false} ProductsSummaryKeys(items: seq<ReportItem>)
    ensures forall k :: k in ProductsSummary(items).entries <==> exists i :: 0 <= i < |items| && NameKey(items[i]) == k
  {
    if items != [] {
      var front, last := items[..|items| - 1], items[|items| - 1];
      ProductsSummaryKeys(front);
      var d := ProductsSummary(items);
      assert d == AddToSummary(ProductsSummary(front), last);
      assert forall k :: k in d.entries <==> k in ProductsSummary(front).entries || k == NameKey(last);
      forall k
        ensures k in d.entries <==> exists i :: 0 <= i < |items| && NameKey(items[i]) == k
      {
        NameKeyStep(items, front, k);
      }
    }
  }

  lemma {:induction false} TotalsOfAbsentName(items: seq<ReportItem>, k: string)
    requires forall i :: 0 <= i < |items| ==> NameKey(items[i]) != k
    ensures TotalsOfName(items, k) == TypeBucket(0, 0)
  {
    if items != [] {
      TotalsOfAbsentName(items[..|items| - 1], k);
    }
  }

  /** Each entry of `productsSummary` carries its own name and the quantity and
      revenue of exactly the items with that name. */
  lemma {:induction false} ProductsSummaryContent(items: seq<ReportItem>)
    ensures forall k :: k in ProductsSummary(items).entries ==>
      var e := ProductsSummary(items).entries[k];
      e.name == k && e.quantity == TotalsOfName(items, k).count && e.revenue == TotalsOfName(items, k).revenue
  {
    if items != [] {
      var front, last := items[..|items| - 1], items[|items| - 1];
      ProductsSummaryContent(front);
      ProductsSummaryKeys(front);
      var d0 := ProductsSummary(front);
      var d := ProductsSummary(items);
      assert d == AddToSummary(d0, last);
      forall k | k in d.entries
        ensures d.entries[k].name == k
        ensures d.entries[k].quantity == TotalsOfName(items, k).count
        ensures d.entries[k].revenue == TotalsOfName(items, k).revenue
      {
        if k == NameKey(last) && k !in d0.entries {
          TotalsOfAbsentName(front, k);
        }
      }
    }
  }

  /** Item `i` is the first of `items` whose name key is `k`. */
  predicate FirstNamed(items: seq<ReportItem>, k: string, i: int)
  {
    0 <= i < |items| && NameKey(items[i]) == k && forall j :: 0 <= j < i ==> NameKey(items[j]) != k
  }

  /** One summary step keeps the type of an entry that already exists, and gives
      a new entry the type of its item. */
  lemma AddToSummaryType(d: Dict<ProductSummary>, item: ReportItem, k: string)
    requires k in d.entries || k == NameKey(item)
    ensures k in AddToSummary(d, item).entries
    ensures k in d.entries ==> AddToSummary(d, item).entries[k].productType == d.entries[k].productType
    ensures k !in d.entries ==> AddToSummary(d, item).entries[k].productType == TypeKey(item)
  {
  }

  /** A name no item carries has no summary entry. */
  lemma AbsentNameNoEntry(items: seq<ReportItem>, k: string)
    requires forall j :: 0 <= j < |items| ==> NameKey(items[j]) != k
    ensures k !in ProductsSummary(items).entries
  {
    ProductsSummaryKeys(items);
  }

  /** A summary entry keeps the type of the first item seen with its name. */
  lemma {:induction false} ProductsSummaryType(items: seq<ReportItem>, k: string, i: int)
    requires FirstNamed(items, k, i)
    ensures k in ProductsSummary(items).entries
    ensures ProductsSummary(items).entries[k].productType == TypeKey(items[i])
  {
    var front, last := items[..|items| - 1], items[|items| - 1];
    var d0 := ProductsSummary(front);
    assert ProductsSummary(items) == AddToSummary(d0, last);
    if i < |front| {
      assert FirstNamed(front, k, i) by {
        forall j | 0 <= j < i ensures NameKey(front[j]) != k {
          assert front[j] == items[j];
        }
      }
      ProductsSummaryType(front, k, i);
      assert front[i] == items[i];
      AddToSummaryType(d0, last, k);
    } else {
      assert last == items[i];
      forall j | 0 <= j < |front| ensures NameKey(front[j]) != k {
        assert front[j] == items[j];
      }
      AbsentNameNoEntry(front, k);
      AddToSummaryType(d0, last, k);
    }
  }

  const TypeLabels: map<string, string> := map[
    "procedure" := "Procedimentos",
    "medication" := "Medicamentos",
    "consultation" := "Consultas",
    "product" := "Produtos",
    "other" := "Outros"]

  /** `types[type] || type`. */
  function TypeLabel(t: string): (shown: string)
    ensures t in TypeLabels ==> shown == TypeLabels[t]
    ensures shown == t <==> t !in TypeLabels
    ensures shown == "" <==> t == ""
  {
    LookupOr(TypeLabels, t, t)
  }

  /** Every bucket of the report is shown under a non-empty label. */
  lemma BucketLabelsNonEmpty(items: seq<ReportItem>)
    ensures forall k :: k in TypeBuckets(items).keys ==> TypeLabel(k) != ""
  {
    TypeBucketsKeys(items);
  }

  /** `profitMargin`: the text `'0'`, or the margin as a percentage (its rendering
      with `toFixed(1)` is not modelled). */
  datatype Margin = ZeroText | Percent(value: real)

  function ProfitMargin(totalRevenue: int, profit: int): (m: Margin)
    ensures m == ZeroText <==> totalRevenue <= 0
    ensures m.Percent? ==> m.value * totalRevenue as real == profit as real * 100.0
  {
    if totalRevenue > 0 then Percent(profit as real / totalRevenue as real * 100.0) else ZeroText
  }

  /** With a non-negative cost the margin is at most 100%, and with a cost no
      larger than the revenue it is not negative. */
  lemma MarginBounds(totalRevenue: int, totalCost: int)
    requires totalRevenue > 0 && totalCost >= 0
    ensures ProfitMargin(totalRevenue, totalRevenue - totalCost).value <= 100.0
    ensures totalCost <= totalRevenue ==> ProfitMargin(totalRevenue, totalRevenue - totalCost).value >= 0.0
  {
    var r, p := totalRevenue as real, (totalRevenue - totalCost) as real;
    assert p / r <= 1.0;
  }
}
