/**
 Worked examples: the add / add / decrement / decrement walk-through of one
 product at $9.99, and a two-product cart. Prices are in cents.
 */
module Scenarios {
  import opened CartState
  import opened Totals

  /** One product added twice and decremented twice: totals 9.99, 19.98, 9.99, then an empty cart. */
  lemma OneProductWalkthrough()
    ensures var c1 := AddOrIncrement([], "A", "Widget", 999);
      && AsMap(c1) == map["A" := Line("Widget", 999, 1)]
      && ItemCount(c1) == 1 && TotalPrice(c1) == 999
    ensures var c2 := AddOrIncrement(AddOrIncrement([], "A", "Widget", 999), "A", "Widget", 999);
      && AsMap(c2) == map["A" := Line("Widget", 999, 2)]
      && ItemCount(c2) == 2 && TotalPrice(c2) == 1998
    ensures var c3 := Decrement(AddOrIncrement(AddOrIncrement([], "A", "Widget", 999), "A", "Widget", 999), "A");
      && AsMap(c3) == map["A" := Line("Widget", 999, 1)]
      && ItemCount(c3) == 1 && TotalPrice(c3) == 999
    ensures var c4 := Decrement(Decrement(AddOrIncrement(AddOrIncrement([], "A", "Widget", 999), "A", "Widget", 999), "A"), "A");
      && AsMap(c4) == map[] && ItemCount(c4) == 0 && TotalPrice(c4) == 0
  {
  }

  /** Two lines, A at 2 x 9.99 and B at 1 x 3.50: 3 items, 23.48 in all. */
  lemma TwoProductTotals()
    ensures var c := AddOrIncrement(AddOrIncrement(AddOrIncrement([], "A", "Widget", 999), "A", "Widget", 999), "B", "Gadget", 350);
      && AsMap(c) == map["A" := Line("Widget", 999, 2), "B" := Line("Gadget", 350, 1)]
      && Ids(c) == ["A", "B"]
      && ItemCount(c) == 3 && TotalPrice(c) == 2348
  {
  }
}
