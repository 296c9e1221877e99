/**
 * `calculateStats` of client/src/pages/Dashboard.tsx: the item count, the
 * low-stock count, and per-category counters incremented in place.
 */
module Dashboard {
  import opened ClientTypes

  /**
   * A counter value. `stats.categories[c]++` on a key that was never
   * initialised reads `undefined`, and `undefined + 1` is `NaN`, which
   * stays `NaN` under further increments.
   */
  datatype Count = Num(n: nat) | NaN

  function Increment(c: Count): Count {
    match c
    case Num(n) => Num(n + 1)
    case NaN => NaN
  }

  datatype Stats = Stats(totalItems: nat, lowStock: nat, categories: map<string, Count>)

  const LowStockThreshold := 5

  /** `items.filter(item => item.quantity < 5)`. */
  function LowStockItems(items: seq<ClientItem>): (r: seq<ClientItem>)
    ensures forall x :: x in r <==> x in items && x.quantity < LowStockThreshold
    ensures forall x :: multiset(r)[x] == if x.quantity < LowStockThreshold then multiset(items)[x] else 0
    ensures |r| <= |items|
  {
    if items == [] then []
    else
      var front := items[..|items| - 1];
      var init := LowStockItems(front);
      var last := items[|items| - 1];
      assert items == front + [last];
      assert multiset(items) == multiset(front) + multiset{last};
      if last.quantity < LowStockThreshold then
        assert multiset(init + [last]) == multiset(init) + multiset{last};
        init + [last]
      else init
  }

  /** The number of positions whose item is below the threshold, counted from the front. */
  function CountLow(items: seq<ClientItem>): nat {
    if items == [] then 0
    else (if items[0].quantity < LowStockThreshold then 1 else 0) + CountLow(items[1..])
  }

  lemma {:induction false} CountLowSnoc(items: seq<ClientItem>, x: ClientItem)
    ensures CountLow(items + [x]) == CountLow(items) + if x.quantity < LowStockThreshold then 1 else 0
  {
    if items != [] {
      assert (items + [x])[1..] == items[1..] + [x];
      CountLowSnoc(items[1..], x);
    }
  }

  /** The low-stock list has one entry per item below the threshold, duplicates included. */
  lemma {:induction false} LowStockCount(items: seq<ClientItem>)
    ensures |LowStockItems(items)| == CountLow(items)
  {
    if items != [] {
      var init := items[..|items| - 1];
      LowStockCount(init);
      assert items == init + [items[|items| - 1]];
      CountLowSnoc(init, items[|items| - 1]);
    }
  }

  /** How many items carry category `c`. */
  function CountCategory(items: seq<ClientItem>, c: string): (n: nat)
    ensures n <= |items|
    ensures n == 0 <==> forall k :: 0 <= k < |items| ==> items[k].category != c
  {
    if items == [] then 0
    else CountCategory(items[..|items| - 1], c) + (if items[|items| - 1].category == c then 1 else 0)
  }

  predicate HasCategory(items: seq<ClientItem>, c: string) {
    exists k :: 0 <= k < |items| && items[k].category == c
  }

  /** The counter table after the `forEach` over the first items, starting from the four zeroed categories. */
  function Counters(items: seq<ClientItem>): map<string, Count> {
    if items == [] then map c | c in ClientCategories :: Num(0)
    else
      var m := Counters(items[..|items| - 1]);
      var c := items[|items| - 1].category;
      m[c := if c in m then Increment(m[c]) else NaN]
  }

  /**
   * The counters hold, for each of the four categories, the number of items
   * in it; any other category seen becomes a key holding `NaN`; no other
   * key appears.
   */
  lemma {:induction false} CountersCount(items: seq<ClientItem>)
    ensures forall c :: c in ClientCategories ==> c in Counters(items) && Counters(items)[c] == Num(CountCategory(items, c))
    ensures forall c :: c !in ClientCategories ==>
      (c in Counters(items) <==> HasCategory(items, c)) && (c in Counters(items) ==> Counters(items)[c] == NaN)
  {
    if items != [] {
      var init := items[..|items| - 1];
      CountersCount(init);
      forall c | c !in ClientCategories
        ensures HasCategory(items, c) <==> HasCategory(init, c) || items[|items| - 1].category == c
      {
        HasCategoryLast(items, c);
      }
    }
  }

  /** An item list has category `c` when its front does or its last item has it. */
  lemma HasCategoryLast(items: seq<ClientItem>, c: string)
    requires items != []
    ensures HasCategory(items, c) <==> HasCategory(items[..|items| - 1], c) || items[|items| - 1].category == c
  {
    var init := items[..|items| - 1];
    if HasCategory(items, c) && items[|items| - 1].category != c {
      var k :| 0 <= k < |items| && items[k].category == c;
      assert init[k] == items[k];
    }
    if HasCategory(init, c) {
      var k :| 0 <= k < |init| && init[k].category == c;
      assert items[k] == init[k];
    }
  }

  /** `calculateStats`: the two counts, then the `forEach` that increments `stats.categories[item.category]`. */
  method CalculateStats(items: seq<ClientItem>) returns (stats: Stats)
    ensures stats.totalItems == |items|
    ensures stats.lowStock == |LowStockItems(items)| == CountLow(items)
    ensures stats.categories == Counters(items)
  {
    var categories: map<string, Count> := map["RPM" := Num(0), "Utility Panel" := Num(0), "Handheld" := Num(0), "Other" := Num(0)];
    assert categories == Counters([]);
    for k := 0 to |items|
      invariant categories == Counters(items[..k])
    {
      assert items[..k + 1][..k] == items[..k];
      var c := items[k].category;
      if c in categories {
        categories := categories[c := Increment(categories[c])];
      } else {
        categories := categories[c := NaN];
      }
    }
    assert items[..|items|] == items;
    LowStockCount(items);
    stats := Stats(|items|, |LowStockItems(items)|, categories);
  }

  /** When every item has one of the four categories, the four counters add up to the item count. */
  lemma {:induction false} CategoriesSumToTotal(items: seq<ClientItem>)
    requires forall k :: 0 <= k < |items| ==> items[k].category in ClientCategories
    ensures CountCategory(items, "RPM") + CountCategory(items, "Utility Panel")
      + CountCategory(items, "Handheld") + CountCategory(items, "Other") == |items|
  {
    if items != [] {
      CategoriesSumToTotal(items[..|items| - 1]);
    }
  }
}
