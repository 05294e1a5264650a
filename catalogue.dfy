/**
 * The item search shared by the inventory page, the item picker and the
 * template form: a case-insensitive text query over name and description,
 * an optional category, and the distinct categories of a list of items.
 */
module Catalogue {
  import opened Seqs
  import opened Text
  import opened Types

  /** The query occurs, ignoring case, in the item's name or in its description. */
  predicate MatchesSearch(item: Item, query: string) {
    MatchesQuery(item.name, query) || MatchesQuery(item.description, query)
  }

  /** The item is in the chosen category; the empty string chooses no category, so every item passes. */
  predicate MatchesCategory(item: Item, category: string) {
    category == "" || item.category == category
  }

  /** The search-and-category predicate, as one value to filter with. */
  function SearchFilter(query: string, category: string): Item -> bool {
    item => MatchesSearch(item, query) && MatchesCategory(item, category)
  }

  /** The items matching both the text query and the category, in list order. */
  function Search(items: seq<Item>, query: string, category: string): (r: seq<Item>)
    ensures forall x :: x in r <==> x in items && MatchesSearch(x, query) && MatchesCategory(x, category)
    ensures IsSubsequence(r, items)
    ensures forall x :: x in items && MatchesSearch(x, query) && MatchesCategory(x, category) ==>
      multiset(r)[x] == multiset(items)[x]
  {
    FilterIsSubsequence(items, SearchFilter(query, category));
    FilterMultiplicity(items, SearchFilter(query, category));
    Filter(items, SearchFilter(query, category))
  }

  /** With an empty query and no category chosen, the search returns the list itself. */
  lemma SearchEverything(items: seq<Item>)
    ensures Search(items, "", "") == items
  {
    forall k | 0 <= k < |items| ensures SearchFilter("", "")(items[k]) {
      EmptyQueryMatchesAll(items[k].name);
    }
    FilterKeepsAll(items, SearchFilter("", ""));
  }

  function CategoryOf(item: Item): string { item.category }

  /** The categories of the items, each once, in order of first appearance. */
  function Categories(items: seq<Item>): (r: seq<string>)
    ensures NoDuplicates(r) && |r| <= |items|
    ensures forall c :: c in r <==> exists k :: 0 <= k < |items| && items[k].category == c
    ensures forall c :: c in r <==> c in Map(items, CategoryOf)
    ensures forall i, j :: 0 <= i < j < |r| ==>
      IndexOf(Map(items, CategoryOf), r[i]) < IndexOf(Map(items, CategoryOf), r[j])
  {
    var all := Map(items, CategoryOf);
    DedupFirstOccurrenceOrder(all);
    forall c ensures c in all <==> exists k :: 0 <= k < |items| && items[k].category == c {
      if c in all {
        var k :| 0 <= k < |all| && all[k] == c;
        assert items[k].category == c;
      }
      if exists k :: 0 <= k < |items| && items[k].category == c {
        var k :| 0 <= k < |items| && items[k].category == c;
        assert all[k] == c;
      }
    }
    Dedup(all)
  }
}
