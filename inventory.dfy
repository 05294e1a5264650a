/**
 * The inventory page: its own item list with the add handler, the
 * search / category / availability filter, and the stock badge.
 */
module Inventory {
  import opened Optional
  import opened Seqs
  import opened Text
  import opened Types
  import Catalogue

  /** The page's starting list: a speaker (3 of 4 free) and a light (8 of 8). */
  const InitialItems: seq<Item> := [
    Item("1", "Professional Speaker", "Audio", "High-quality powered speaker", 4, 3, Some("Regular maintenance required"), None),
    Item("2", "LED Par Light", "Lighting", "RGB LED Par Can", 8, 8, Some("New stock"), None)]

  class InventoryView {
    var items: seq<Item>

    constructor ()
      ensures items == InitialItems
    {
      items := InitialItems;
    }

    /** `handleAddItem`: the draft with the new id appended; every earlier item stays in place. */
    method AddItem(draft: ItemDraft, freshId: Id)
      modifies this
      ensures items == old(items) + [draft.WithId(freshId)]
      ensures |items| == |old(items)| + 1 && items[..|old(items)|] == old(items)
      ensures items[|old(items)|].id == freshId
    {
      items := items + [draft.WithId(freshId)];
      assert items[..|old(items)|] == old(items);
    }
  }

  /** Fewer than a fifth of the units are free, compared in integers. */
  predicate IsLow(item: Item) {
    5 * item.available < item.quantity
  }

  /**
   * The availability clause for the filter's value: `"all"` admits every
   * item, `"available"` those with a free unit, `"low"` those running low,
   * and any other value none.
   */
  predicate MatchesAvailability(item: Item, availability: string)
    ensures MatchesAvailability(item, availability) ==>
      availability == "all" || availability == "available" || availability == "low"
  {
    || availability == "all"
    || (availability == "available" && item.available > 0)
    || (availability == "low" && IsLow(item))
  }

  function AvailabilityFilter(availability: string): Item -> bool {
    item => MatchesAvailability(item, availability)
  }

  function InventoryFilter(query: string, category: string, availability: string): Item -> bool {
    item => Catalogue.MatchesSearch(item, query) && Catalogue.MatchesCategory(item, category)
      && MatchesAvailability(item, availability)
  }

  /** `filteredItems`: the items passing all three clauses, in list order. */
  function FilteredItems(items: seq<Item>, query: string, category: string, availability: string): (r: seq<Item>)
    ensures forall x :: x in r <==> (x in items && Catalogue.MatchesSearch(x, query)
      && Catalogue.MatchesCategory(x, category) && MatchesAvailability(x, availability))
    ensures IsSubsequence(r, items)
    ensures forall x :: (x in items && Catalogue.MatchesSearch(x, query) && Catalogue.MatchesCategory(x, category)
      && MatchesAvailability(x, availability)) ==> multiset(r)[x] == multiset(items)[x]
  {
    FilterIsSubsequence(items, InventoryFilter(query, category, availability));
    FilterMultiplicity(items, InventoryFilter(query, category, availability));
    Filter(items, InventoryFilter(query, category, availability))
  }

  /** With `"all"` the page shows what the search and category alone select. */
  lemma AllIsSearch(items: seq<Item>, query: string, category: string)
    ensures FilteredItems(items, query, category, "all") == Catalogue.Search(items, query, category)
  {
    FilterExt(items, InventoryFilter(query, category, "all"), Catalogue.SearchFilter(query, category));
  }

  /** With an empty query and no category, only the availability clause decides. */
  lemma OnlyAvailabilityDecides(items: seq<Item>, availability: string)
    ensures FilteredItems(items, "", "", availability) == Filter(items, AvailabilityFilter(availability))
  {
    forall k | 0 <= k < |items|
      ensures InventoryFilter("", "", availability)(items[k]) == AvailabilityFilter(availability)(items[k])
    {
      EmptyQueryMatchesAll(items[k].name);
    }
    FilterExt(items, InventoryFilter("", "", availability), AvailabilityFilter(availability));
  }

  /** `"available"` keeps exactly the items with a free unit; `"low"` keeps every sold-out item that has units. */
  lemma AvailabilityRules(item: Item)
    ensures MatchesAvailability(item, "all")
    ensures MatchesAvailability(item, "available") <==> item.available > 0
    ensures item.quantity > 0 && item.available == 0 ==> MatchesAvailability(item, "low")
    ensures MatchesAvailability(item, "low") <==> 5 * item.available < item.quantity
  {
  }

  /** With one item of each kind, `"low"` keeps only the sold-out one and `"available"` only the stocked one. */
  lemma LowKeepsSoldOut()
    ensures var soldOut := Item("a", "Cable", "Audio", "", 10, 0, None, None);
            var stocked := Item("b", "Stand", "Audio", "", 10, 10, None, None);
            FilteredItems([soldOut, stocked], "", "", "low") == [soldOut]
            && FilteredItems([soldOut, stocked], "", "", "available") == [stocked]
  {
    var soldOut := Item("a", "Cable", "Audio", "", 10, 0, None, None);
    var stocked := Item("b", "Stand", "Audio", "", 10, 10, None, None);
    var both := [soldOut, stocked];
    OnlyAvailabilityDecides(both, "low");
    OnlyAvailabilityDecides(both, "available");
    assert both[1..] == [stocked] && [stocked][1..] == [];
    assert MatchesAvailability(soldOut, "low") && !MatchesAvailability(stocked, "low");
    assert !MatchesAvailability(soldOut, "available") && MatchesAvailability(stocked, "available");
    FilterCons(both, AvailabilityFilter("low"));
    FilterCons([stocked], AvailabilityFilter("low"));
    FilterCons(both, AvailabilityFilter("available"));
    FilterCons([stocked], AvailabilityFilter("available"));
  }

  /** The badge colours of the availability column. */
  datatype StockBadge = Full | SoldOut | Partial

  /** Full when every unit is free (tested first), else sold out at zero free, else partial. */
  function Badge(item: Item): (b: StockBadge)
    ensures b == Full <==> item.available == item.quantity
    ensures b == SoldOut <==> item.available == 0 && item.quantity != 0
    ensures b == Partial <==> item.available != item.quantity && item.available != 0
  {
    if item.available == item.quantity then Full
    else if item.available == 0 then SoldOut
    else Partial
  }

  /** An item with no units counts as fully available; under the stock rule a partial badge means some but not all are free. */
  lemma BadgeCases(item: Item)
    ensures item.quantity == 0 && item.available == 0 ==> Badge(item) == Full
    ensures 0 <= item.available <= item.quantity && Badge(item) == Partial ==> 0 < item.available < item.quantity
  {
  }
}
