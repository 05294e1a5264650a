/**
 * The application's state container: the item, event and template
 * collections with their create/update/delete operations, and the part of
 * the state that is persisted between sessions.
 *
 * Every mutator replaces one collection with a new sequence computed from the
 * old one; the new ids that the application takes from the clock are passed in.
 */
module Store {
  import opened Optional
  import opened Seqs
  import opened Types
  import Keyed

  /** `Partial<Item>`: the fields an update sets. An absent field keeps the item's own value. */
  datatype ItemPatch = ItemPatch(
    id: Option<Id>,
    name: Option<string>,
    category: Option<string>,
    description: Option<string>,
    quantity: Option<int>,
    available: Option<int>,
    notes: Option<string>,
    lastUsed: Option<int>)

  /** The patch that sets no field. */
  const EmptyPatch := ItemPatch(None, None, None, None, None, None, None, None)

  /** An item merged with a patch: each field the patch sets wins; every other field is the item's. */
  function Merge(item: Item, patch: ItemPatch): (r: Item)
    ensures patch.id.Some? ==> r.id == patch.id.value
    ensures patch.id.None? ==> r.id == item.id
    ensures patch.name.Some? ==> r.name == patch.name.value
    ensures patch.name.None? ==> r.name == item.name
    ensures patch.category.Some? ==> r.category == patch.category.value
    ensures patch.category.None? ==> r.category == item.category
    ensures patch.description.Some? ==> r.description == patch.description.value
    ensures patch.description.None? ==> r.description == item.description
    ensures patch.quantity.Some? ==> r.quantity == patch.quantity.value
    ensures patch.quantity.None? ==> r.quantity == item.quantity
    ensures patch.available.Some? ==> r.available == patch.available.value
    ensures patch.available.None? ==> r.available == item.available
    ensures patch.notes.Some? ==> r.notes == patch.notes
    ensures patch.notes.None? ==> r.notes == item.notes
    ensures patch.lastUsed.Some? ==> r.lastUsed == patch.lastUsed
    ensures patch.lastUsed.None? ==> r.lastUsed == item.lastUsed
  {
    Item(
      patch.id.GetOr(item.id),
      patch.name.GetOr(item.name),
      patch.category.GetOr(item.category),
      patch.description.GetOr(item.description),
      patch.quantity.GetOr(item.quantity),
      patch.available.GetOr(item.available),
      if patch.notes.Some? then patch.notes else item.notes,
      if patch.lastUsed.Some? then patch.lastUsed else item.lastUsed)
  }

  /** Two patches combined, the second's fields winning. */
  function Overlay(first: ItemPatch, second: ItemPatch): ItemPatch {
    ItemPatch(
      if second.id.Some? then second.id else first.id,
      if second.name.Some? then second.name else first.name,
      if second.category.Some? then second.category else first.category,
      if second.description.Some? then second.description else first.description,
      if second.quantity.Some? then second.quantity else first.quantity,
      if second.available.Some? then second.available else first.available,
      if second.notes.Some? then second.notes else first.notes,
      if second.lastUsed.Some? then second.lastUsed else first.lastUsed)
  }

  /** Merging the empty patch changes nothing. */
  lemma MergeEmpty(item: Item)
    ensures Merge(item, EmptyPatch) == item
  {
  }

  /** Merging one patch and then another is merging their overlay once. */
  lemma MergeOverlay(item: Item, first: ItemPatch, second: ItemPatch)
    ensures Merge(Merge(item, first), second) == Merge(item, Overlay(first, second))
  {
  }

  /** Applying a patch a second time changes nothing more. */
  lemma MergeIdempotent(item: Item, patch: ItemPatch)
    ensures Merge(Merge(item, patch), patch) == Merge(item, patch)
  {
  }

  /** The item list with every item carrying the id merged with the patch, the others untouched. */
  function PatchItems(items: seq<Item>, id: Id, patch: ItemPatch): (r: seq<Item>)
    ensures |r| == |items|
    ensures forall k :: 0 <= k < |items| && items[k].id == id ==> r[k] == Merge(items[k], patch)
    ensures forall k :: 0 <= k < |items| && items[k].id != id ==> r[k] == items[k]
    ensures (forall k :: 0 <= k < |items| ==> items[k].id != id) ==> r == items
  {
    Map(items, (item: Item) => if item.id == id then Merge(item, patch) else item)
  }

  /** The stock rule the data is meant to obey but that no operation checks. */
  predicate StockOk(item: Item) {
    0 <= item.available <= item.quantity
  }

  /** A patch that leaves both stock counts alone, or sets both to an admissible pair. */
  predicate PatchKeepsStock(patch: ItemPatch) {
    || (patch.quantity.None? && patch.available.None?)
    || (patch.quantity.Some? && patch.available.Some? && 0 <= patch.available.value <= patch.quantity.value)
  }

  /** Updating keeps the stock rule on every item when the rule already held and the patch respects it. */
  lemma PatchItemsKeepsStock(items: seq<Item>, id: Id, patch: ItemPatch)
    requires forall k :: 0 <= k < |items| ==> StockOk(items[k])
    requires PatchKeepsStock(patch)
    ensures forall k :: 0 <= k < |PatchItems(items, id, patch)| ==> StockOk(PatchItems(items, id, patch)[k])
  {
    var r := PatchItems(items, id, patch);
    forall k | 0 <= k < |r| ensures StockOk(r[k]) {
      if items[k].id == id {
        assert r[k] == Merge(items[k], patch);
      }
    }
  }

  /** The update does not reject an available count above the quantity: 8 owned, patched to 9 available. */
  lemma PatchItemsAcceptsOverstock()
    ensures var item := Item("1", "Speaker", "Audio", "", 8, 8, None, None);
            var patch := EmptyPatch.(available := Some(9));
            StockOk(item) && !StockOk(PatchItems([item], "1", patch)[0])
  {
  }

  /**
   * The stored event: the draft's fields with the new id, where a missing
   * checklist, merchandise list or equipment list becomes empty and missing
   * details become a record with no field set.
   */
  function Materialize(draft: EventDraft, id: Id): (e: Event)
    ensures e.id == id
    ensures draft.checklist.Some? ==> e.checklist == draft.checklist.value
    ensures draft.checklist.None? ==> e.checklist == []
    ensures e.details.Some? && (draft.details.Some? ==> e.details == draft.details)
    ensures draft.details.None? ==> e.details == Some(NoDetails)
    ensures e.merchandise.Some? && (draft.merchandise.Some? ==> e.merchandise == draft.merchandise)
    ensures draft.merchandise.None? ==> e.merchandise == Some([])
    ensures e.equipment.Some? && (draft.equipment.Some? ==> e.equipment == draft.equipment)
    ensures draft.equipment.None? ==> e.equipment == Some([])
    ensures e.name == draft.name && e.date == draft.date && e.eventType == draft.eventType
    ensures e.venue == draft.venue && e.expectedAttendees == draft.expectedAttendees
    ensures e.notes == draft.notes && e.artists == draft.artists
    ensures e.performances == draft.performances && e.budget == draft.budget
  {
    Event(
      id, draft.name, draft.date, draft.eventType, draft.venue, draft.expectedAttendees,
      draft.checklist.GetOr([]),
      draft.notes,
      Some(draft.details.GetOr(NoDetails)),
      draft.artists, draft.performances,
      Some(draft.merchandise.GetOr([])),
      Some(draft.equipment.GetOr([])),
      draft.budget)
  }

  /** The whole state of the container. */
  datatype StoreState = StoreState(
    items: seq<Item>,
    events: seq<Event>,
    templates: seq<ChecklistTemplate>,
    loading: bool,
    error: Option<string>,
    userId: Option<string>)

  /** The persisted part of the state. */
  datatype Snapshot = Snapshot(
    userId: Option<string>,
    items: seq<Item>,
    events: seq<Event>,
    templates: seq<ChecklistTemplate>)

  /** The projection chosen for persistence: the user id and the three collections. */
  function Partialize(s: StoreState): (snap: Snapshot)
    ensures snap.userId == s.userId && snap.items == s.items
    ensures snap.events == s.events && snap.templates == s.templates
  {
    Snapshot(s.userId, s.items, s.events, s.templates)
  }

  /** The loading flag and the error message never reach the snapshot. */
  lemma PartializeIgnoresTransient(s: StoreState, loading: bool, error: Option<string>)
    ensures Partialize(s.(loading := loading, error := error)) == Partialize(s)
  {
  }

  /** Two states with the same snapshot differ at most in the loading flag and the error message. */
  lemma PartializeKeepsPersisted(a: StoreState, b: StoreState)
    requires Partialize(a) == Partialize(b)
    ensures a == b.(loading := a.loading, error := a.error)
  {
    assert a.items == Partialize(a).items && b.items == Partialize(b).items;
    assert a.events == Partialize(a).events && b.events == Partialize(b).events;
    assert a.templates == Partialize(a).templates && b.templates == Partialize(b).templates;
    assert a.userId == Partialize(a).userId && b.userId == Partialize(b).userId;
  }

  class AppStore {
    var items: seq<Item>
    var events: seq<Event>
    var templates: seq<ChecklistTemplate>
    var loading: bool
    var error: Option<string>
    var userId: Option<string>

    function State(): StoreState
      reads this
    {
      StoreState(items, events, templates, loading, error, userId)
    }

    /** What persistence writes. */
    function Persisted(): (snap: Snapshot)
      reads this
      ensures snap == Partialize(State())
    {
      Snapshot(userId, items, events, templates)
    }

    constructor ()
      ensures State() == StoreState([], [], [], false, None, None)
    {
      items, events, templates := [], [], [];
      loading, error, userId := false, None, None;
    }

    method SetUserId(id: Option<string>)
      modifies this
      ensures State() == old(State()).(userId := id)
    {
      userId := id;
    }

    /** Appends the draft with the new id; nothing else changes. */
    method AddItem(draft: ItemDraft, freshId: Id)
      modifies this
      ensures State() == old(State()).(items := old(items) + [draft.WithId(freshId)])
      ensures |items| == |old(items)| + 1 && items[..|old(items)|] == old(items)
      ensures items[|old(items)|].id == freshId
    {
      items := items + [draft.WithId(freshId)];
      assert items[..|old(items)|] == old(items);
    }

    /** Merges the patch into every item with that id; an unknown id leaves the items as they were. */
    method UpdateItem(id: Id, patch: ItemPatch)
      modifies this
      ensures State() == old(State()).(items := PatchItems(old(items), id, patch))
    {
      items := PatchItems(items, id, patch);
    }

    /** Deletes every item with that id; checklists that name it are left as they are. */
    method DeleteItem(id: Id)
      modifies this
      ensures State() == old(State()).(items := Keyed.Without(old(items), ItemKey, id))
      ensures events == old(events)
    {
      items := Keyed.Without(items, ItemKey, id);
    }

    /** Appends the materialised event and returns it. */
    method AddEvent(draft: EventDraft, freshId: Id) returns (e: Event)
      modifies this
      ensures e == Materialize(draft, freshId)
      ensures State() == old(State()).(events := old(events) + [e])
    {
      e := Materialize(draft, freshId);
      events := events + [e];
    }

    /** Replaces every event with the given event's id; an unknown id changes nothing. */
    method UpdateEvent(e: Event)
      modifies this
      ensures State() == old(State()).(events := Keyed.Replace(old(events), EventKey, e))
    {
      events := Keyed.Replace(events, EventKey, e);
    }

    method DeleteEvent(id: Id)
      modifies this
      ensures State() == old(State()).(events := Keyed.Without(old(events), EventKey, id))
    {
      events := Keyed.Without(events, EventKey, id);
    }

    method AddTemplate(draft: TemplateDraft, freshId: Id)
      modifies this
      ensures State() == old(State()).(templates := old(templates) + [draft.WithId(freshId)])
    {
      templates := templates + [draft.WithId(freshId)];
    }

    /** Deletes every template with that id; events derived from it keep their checklists. */
    method DeleteTemplate(id: Id)
      modifies this
      ensures State() == old(State()).(templates := Keyed.Without(old(templates), TemplateKey, id))
      ensures events == old(events)
    {
      templates := Keyed.Without(templates, TemplateKey, id);
    }
  }
}
