/**
 * The item picker of an event's checklist: the catalogue items not yet on
 * the checklist, their categories, the search over them, and the list of
 * ticked ids that the submit hands to the checklist's add handler.
 */
module AddItems {
  import opened Seqs
  import opened Types
  import Keyed
  import Catalogue
  import EventDetails

  function NotIn(existing: seq<Id>): Item -> bool {
    (item: Item) => item.id !in existing
  }

  /** The catalogue items the picker offers: those whose id is not on the checklist, in catalogue order. */
  function AvailableItems(items: seq<Item>, existing: seq<Id>): (r: seq<Item>)
    ensures forall x :: x in r <==> x in items && x.id !in existing
    ensures IsSubsequence(r, items)
    ensures forall x: Item :: x.id !in existing ==> multiset(r)[x] == multiset(items)[x]
  {
    FilterIsSubsequence(items, NotIn(existing));
    FilterMultiplicity(items, NotIn(existing));
    Filter(items, NotIn(existing))
  }

  /** The category chips: the distinct categories of the offered items. */
  function PickerCategories(items: seq<Item>, existing: seq<Id>): (r: seq<string>)
    ensures NoDuplicates(r)
    ensures forall c :: c in r <==> exists x :: x in items && x.id !in existing && x.category == c
  {
    var avail := AvailableItems(items, existing);
    forall c ensures c in Catalogue.Categories(avail) <==> exists x :: x in items && x.id !in existing && x.category == c {
      AvailableCategory(items, existing, c);
    }
    Catalogue.Categories(avail)
  }

  /** Some offered item has category `c` exactly when some catalogue item not on the checklist has it. */
  lemma AvailableCategory(items: seq<Item>, existing: seq<Id>, c: string)
    ensures (exists k :: 0 <= k < |AvailableItems(items, existing)| && AvailableItems(items, existing)[k].category == c)
      <==> exists x :: x in items && x.id !in existing && x.category == c
  {
    var avail := AvailableItems(items, existing);
    if exists k :: 0 <= k < |avail| && avail[k].category == c {
      var k :| 0 <= k < |avail| && avail[k].category == c;
      assert avail[k] in avail;
    }
    if exists x :: x in items && x.id !in existing && x.category == c {
      var x :| x in items && x.id !in existing && x.category == c;
      assert x in avail;
      var k :| 0 <= k < |avail| && avail[k] == x;
      assert avail[k].category == c;
    }
  }

  /** The listed items: the search over the offered items, in catalogue order. */
  function PickerItems(items: seq<Item>, existing: seq<Id>, query: string, category: string): (r: seq<Item>)
    ensures forall x :: x in r <==> (x in items && x.id !in existing
      && Catalogue.MatchesSearch(x, query) && Catalogue.MatchesCategory(x, category))
    ensures IsSubsequence(r, AvailableItems(items, existing))
    ensures forall x :: (x in items && x.id !in existing
      && Catalogue.MatchesSearch(x, query) && Catalogue.MatchesCategory(x, category)) ==> multiset(r)[x] == multiset(items)[x]
  {
    Catalogue.Search(AvailableItems(items, existing), query, category)
  }

  /** Opened on an event, the picker never lists an item already on its checklist. */
  lemma PickerSkipsListed(event: Event, items: seq<Item>, query: string, category: string)
    ensures forall x :: x in PickerItems(items, EventDetails.ExistingItemIds(event), query, category) ==>
      !OnChecklist(event.checklist, x.id)
  {
  }

  /**
   * Ticking only listed items, each once, the checklist gains exactly the
   * ticked ids, in the order ticked.
   */
  lemma PickedItemsAllAdded(event: Event, offered: seq<Item>, selected: seq<Id>)
    requires forall j :: 0 <= j < |offered| ==> !OnChecklist(event.checklist, offered[j].id)
    requires forall k :: 0 <= k < |selected| ==> exists j :: 0 <= j < |offered| && offered[j].id == selected[k]
    ensures EventDetails.Unlisted(event.checklist, selected) == selected
  {
    var keep := (id: Id) => !OnChecklist(event.checklist, id);
    forall k | 0 <= k < |selected| ensures keep(selected[k]) {
      var j :| 0 <= j < |offered| && offered[j].id == selected[k];
    }
    FilterKeepsAll(selected, keep);
  }

  /** The picker's ticked ids, in the order they were ticked. */
  class ItemPicker {
    var selectedIds: seq<Id>

    constructor ()
      ensures selectedIds == []
    {
      selectedIds := [];
    }

    /** A checkbox change: ticking appends the id, unticking removes every copy of it. */
    method Change(itemId: Id, checked: bool)
      modifies this
      ensures checked ==> selectedIds == old(selectedIds) + [itemId]
      ensures !checked ==> selectedIds == Keyed.Without(old(selectedIds), SelfKey, itemId)
      ensures checked && itemId !in old(selectedIds) && NoDuplicates(old(selectedIds)) ==> NoDuplicates(selectedIds)
      ensures !checked && NoDuplicates(old(selectedIds)) ==> NoDuplicates(selectedIds)
    {
      if checked {
        if itemId !in selectedIds && NoDuplicates(selectedIds) {
          NoDuplicatesConcat(selectedIds, [itemId]);
        }
        selectedIds := selectedIds + [itemId];
      } else {
        selectedIds := Keyed.Without(selectedIds, SelfKey, itemId);
      }
    }

    /** The submit button is enabled once some id is ticked. */
    function CanSubmit(): (r: bool)
      reads this
      ensures r <==> exists id :: id in selectedIds
    {
      assert selectedIds != [] ==> selectedIds[0] in selectedIds;
      selectedIds != []
    }

    /** `handleSubmit`: the ticked ids, unchanged. */
    method Submit() returns (ids: seq<Id>)
      requires CanSubmit()
      ensures ids == selectedIds && |ids| > 0
    {
      ids := selectedIds;
    }
  }

  /** Ticking an unticked box and unticking it again restores the ticked ids. */
  lemma TickThenUntick(selected: seq<Id>, itemId: Id)
    requires itemId !in selected
    ensures Keyed.Without(selected + [itemId], SelfKey, itemId) == selected
  {
    Keyed.WithoutAfterAppend(selected, SelfKey, itemId);
  }
}
