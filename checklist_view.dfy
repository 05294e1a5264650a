/**
 * How an event's checklist is displayed: grouped under the categories of
 * the catalogue items it references, each group listing those items in
 * catalogue order with the completion of their entry, and a message when
 * the checklist is empty.
 */
module ChecklistView {
  import opened Optional
  import opened Seqs
  import opened Types
  import Catalogue

  function Referenced(checklist: seq<ChecklistEntry>): Item -> bool {
    (item: Item) => OnChecklist(checklist, item.id)
  }

  function InGroup(checklist: seq<ChecklistEntry>, category: string): Item -> bool {
    (item: Item) => item.category == category && OnChecklist(checklist, item.id)
  }

  /** The section headings: the distinct categories of catalogue items the checklist references. */
  function SectionCategories(checklist: seq<ChecklistEntry>, items: seq<Item>): (r: seq<string>)
    ensures NoDuplicates(r)
    ensures forall c :: c in r <==> exists x :: x in items && OnChecklist(checklist, x.id) && x.category == c
  {
    var referenced := Filter(items, Referenced(checklist));
    var r := Catalogue.Categories(referenced);
    forall c ensures c in r <==> exists x :: x in items && OnChecklist(checklist, x.id) && x.category == c {
      if c in r {
        var k :| 0 <= k < |referenced| && referenced[k].category == c;
        assert referenced[k] in referenced;
      }
      if exists x :: x in items && OnChecklist(checklist, x.id) && x.category == c {
        var x :| x in items && OnChecklist(checklist, x.id) && x.category == c;
        assert x in referenced;
        var k :| 0 <= k < |referenced| && referenced[k] == x;
      }
    }
    r
  }

  /** The catalogue items of one category that the checklist names, in catalogue order. */
  function CategoryGroup(checklist: seq<ChecklistEntry>, items: seq<Item>, category: string): (r: seq<Item>)
    ensures forall x :: x in r <==> x in items && x.category == category && OnChecklist(checklist, x.id)
    ensures IsSubsequence(r, items)
    ensures forall x :: (x in items && x.category == category && OnChecklist(checklist, x.id)) ==>
      multiset(r)[x] == multiset(items)[x]
  {
    FilterIsSubsequence(items, InGroup(checklist, category));
    FilterMultiplicity(items, InGroup(checklist, category));
    Filter(items, InGroup(checklist, category))
  }

  /** A referenced catalogue item is listed under its own category and under no other. */
  lemma EveryReferencedInOneGroup(checklist: seq<ChecklistEntry>, items: seq<Item>, x: Item)
    requires x in items && OnChecklist(checklist, x.id)
    ensures x.category in SectionCategories(checklist, items)
    ensures x in CategoryGroup(checklist, items, x.category)
    ensures forall c :: c != x.category ==> x !in CategoryGroup(checklist, items, c)
  {
  }

  /** An entry whose id names no catalogue item appears in no group. */
  lemma OrphanNeverRendered(checklist: seq<ChecklistEntry>, items: seq<Item>, id: Id, category: string)
    requires forall k :: 0 <= k < |items| ==> items[k].id != id
    ensures forall x :: x in CategoryGroup(checklist, items, category) ==> x.id != id
  {
  }

  /** Whether an entry is the one for `id`. */
  function EntryFor(id: Id): ChecklistEntry -> bool {
    (e: ChecklistEntry) => e.itemId == id
  }

  /** The first checklist entry for the id, if the id is on the checklist. */
  function EntryOf(checklist: seq<ChecklistEntry>, id: Id): (r: Option<ChecklistEntry>)
    ensures r.None? <==> !OnChecklist(checklist, id)
    ensures r.Some? ==> r.value.itemId == id && r.value in checklist
    ensures r.Some? ==> exists k :: (0 <= k < |checklist| && checklist[k] == r.value
      && forall j :: 0 <= j < k ==> checklist[j].itemId != id)
  {
    Find(checklist, EntryFor(id))
  }

  /** For every listed item the entry lookup finds an entry, so the non-null assertion is safe. */
  lemma GroupLookupSucceeds(checklist: seq<ChecklistEntry>, items: seq<Item>, category: string, x: Item)
    requires x in CategoryGroup(checklist, items, category)
    ensures EntryOf(checklist, x.id).Some?
    ensures EntryOf(checklist, x.id).value.itemId == x.id
  {
  }

  /** The empty-checklist message: shown exactly when no id is on the checklist. */
  function ShowsEmptyMessage(checklist: seq<ChecklistEntry>): (r: bool)
    ensures r <==> forall id :: !OnChecklist(checklist, id)
  {
    assert checklist != [] ==> OnChecklist(checklist, checklist[0].itemId);
    |checklist| == 0
  }

  /** An empty checklist shows the message and no group. */
  lemma EmptyChecklistView(items: seq<Item>)
    ensures ShowsEmptyMessage([])
    ensures SectionCategories([], items) == []
  {
    var r := SectionCategories([], items);
    assert forall c :: c !in r;
    assert multiset(r) == multiset{} by {
      forall c ensures multiset(r)[c] == 0 {
        assert c !in r;
      }
    }
  }

  /** A checklist whose entries all name missing items shows neither a group nor the message. */
  lemma OrphansOnlyShowNothing(checklist: seq<ChecklistEntry>, items: seq<Item>)
    requires |checklist| > 0
    requires forall k, j :: 0 <= k < |checklist| && 0 <= j < |items| ==> items[j].id != checklist[k].itemId
    ensures !ShowsEmptyMessage(checklist)
    ensures SectionCategories(checklist, items) == []
  {
    var r := SectionCategories(checklist, items);
    assert multiset(r) == multiset{} by {
      forall c ensures multiset(r)[c] == 0 {
        assert c !in r;
      }
    }
  }
}
