/**
 * The event detail view's handlers: toggling a checklist entry, adding picked
 * items to the checklist, and replacing the notes, merchandise list,
 * equipment list or details record of the event. Each handler hands the
 * resulting event to the store's event update.
 */
module EventDetails {
  import opened Optional
  import opened Seqs
  import opened Types

  /** The event fields a handler may replace. */
  datatype EventField = ChecklistField | NotesField | DetailsField | MerchandiseField | EquipmentField

  /** `a` and `b` agree on every field except possibly `f`. */
  predicate SameExcept(a: Event, b: Event, f: EventField) {
    && a.id == b.id && a.name == b.name && a.date == b.date && a.eventType == b.eventType
    && a.venue == b.venue && a.expectedAttendees == b.expectedAttendees
    && a.artists == b.artists && a.performances == b.performances && a.budget == b.budget
    && (f == ChecklistField || a.checklist == b.checklist)
    && (f == NotesField || a.notes == b.notes)
    && (f == DetailsField || a.details == b.details)
    && (f == MerchandiseField || a.merchandise == b.merchandise)
    && (f == EquipmentField || a.equipment == b.equipment)
  }

  /** Flips `completed` on every entry for `itemId` and leaves the other entries as they are. */
  function ToggleEntries(checklist: seq<ChecklistEntry>, itemId: Id): (r: seq<ChecklistEntry>)
    ensures |r| == |checklist|
    ensures EntryIds(r) == EntryIds(checklist)
    ensures forall k :: 0 <= k < |checklist| && checklist[k].itemId == itemId ==>
      r[k].completed == !checklist[k].completed
    ensures forall k :: 0 <= k < |checklist| && checklist[k].itemId != itemId ==> r[k] == checklist[k]
    ensures !OnChecklist(checklist, itemId) ==> r == checklist
  {
    Map(checklist, (e: ChecklistEntry) => if e.itemId == itemId then e.(completed := !e.completed) else e)
  }

  /** Toggling the same id twice restores the checklist. */
  lemma ToggleEntriesTwice(checklist: seq<ChecklistEntry>, itemId: Id)
    ensures ToggleEntries(ToggleEntries(checklist, itemId), itemId) == checklist
  {
    var once := ToggleEntries(checklist, itemId);
    var twice := ToggleEntries(once, itemId);
    forall k | 0 <= k < |checklist| ensures twice[k] == checklist[k] {
      assert once[k].itemId == EntryIds(once)[k] == EntryIds(checklist)[k] == checklist[k].itemId;
    }
  }

  /** `handleToggleItem`: the event with that entry's completion flipped. */
  function ToggleItem(event: Event, itemId: Id): (r: Event)
    ensures SameExcept(r, event, ChecklistField)
    ensures r.checklist == ToggleEntries(event.checklist, itemId)
  {
    event.(checklist := ToggleEntries(event.checklist, itemId))
  }

  /** The chosen ids that are not on the checklist yet, in the order they were chosen, repeats kept. */
  function Unlisted(checklist: seq<ChecklistEntry>, selected: seq<Id>): (r: seq<Id>)
    ensures forall id :: id in r <==> id in selected && !OnChecklist(checklist, id)
    ensures forall id :: !OnChecklist(checklist, id) ==> multiset(r)[id] == multiset(selected)[id]
    ensures IsSubsequence(r, selected)
    ensures NoDuplicates(selected) ==> NoDuplicates(r)
  {
    var unlisted := (id: Id) => !OnChecklist(checklist, id);
    FilterIsSubsequence(selected, unlisted);
    FilterMultiplicity(selected, unlisted);
    if NoDuplicates(selected) then
      FilterNoDuplicates(selected, unlisted);
      Filter(selected, unlisted)
    else
      Filter(selected, unlisted)
  }

  /**
   * The checklist after `handleAddItems`: the old checklist untouched, then one
   * open entry per chosen id not already present, in the order chosen.
   */
  function AddEntries(checklist: seq<ChecklistEntry>, selected: seq<Id>): (r: seq<ChecklistEntry>)
    ensures |r| >= |checklist| && r[..|checklist|] == checklist
    ensures EntryIds(r[|checklist|..]) == Unlisted(checklist, selected)
    ensures forall k :: |checklist| <= k < |r| ==> !r[k].completed
    ensures forall k :: |checklist| <= k < |r| ==> !OnChecklist(checklist, r[k].itemId)
    ensures forall id :: id in selected ==> OnChecklist(r, id)
  {
    var unlisted := Unlisted(checklist, selected);
    var added := Map(unlisted, (id: Id) => ChecklistEntry(id, false));
    var r := checklist + added;
    assert r[..|checklist|] == checklist;
    assert r[|checklist|..] == added;
    assert EntryIds(added) == unlisted;
    forall k | |checklist| <= k < |r| ensures !OnChecklist(checklist, r[k].itemId) {
      var j := k - |checklist|;
      assert r[k] == added[j];
      assert added[j].itemId == unlisted[j];
      assert unlisted[j] in unlisted;
    }
    forall id | id in selected ensures OnChecklist(r, id) {
      OnChecklistAppend(checklist, added, id);
      OnChecklistIffInIds(added, id);
    }
    r
  }

  /** Ids are unique after adding when they were unique before and no id was chosen twice. */
  lemma AddEntriesKeepsIdsUnique(checklist: seq<ChecklistEntry>, selected: seq<Id>)
    requires NoDuplicates(EntryIds(checklist))
    requires NoDuplicates(selected)
    ensures NoDuplicates(EntryIds(AddEntries(checklist, selected)))
  {
    var r := AddEntries(checklist, selected);
    var n := |checklist|;
    assert r == r[..n] + r[n..];
    assert EntryIds(r) == EntryIds(r[..n]) + EntryIds(r[n..]);
    forall x | x in EntryIds(checklist) ensures x !in Unlisted(checklist, selected) {
      OnChecklistIffInIds(checklist, x);
    }
    NoDuplicatesConcat(EntryIds(checklist), Unlisted(checklist, selected));
  }

  /** An id chosen twice in one picking is added twice: the handler does not de-duplicate the selection. */
  lemma AddEntriesKeepsRepeatedChoice()
    ensures AddEntries([], ["1", "1"]) == [ChecklistEntry("1", false), ChecklistEntry("1", false)]
  {
    var selected: seq<Id> := ["1", "1"];
    UnlistedOnEmpty(selected);
    var added := Map(selected, (id: Id) => ChecklistEntry(id, false));
    assert AddEntries([], selected) == [] + added;
    assert added == [ChecklistEntry("1", false), ChecklistEntry("1", false)];
  }

  /** On an empty checklist no chosen id is listed yet, so every one is kept. */
  lemma UnlistedOnEmpty(selected: seq<Id>)
    ensures Unlisted([], selected) == selected
  {
    FilterKeepsAll(selected, (id: Id) => !OnChecklist([], id));
  }

  /** Adding the same picking again changes nothing: every chosen id is already present. */
  lemma AddEntriesIdempotent(checklist: seq<ChecklistEntry>, selected: seq<Id>)
    ensures AddEntries(AddEntries(checklist, selected), selected) == AddEntries(checklist, selected)
  {
    var once := AddEntries(checklist, selected);
    var twice := AddEntries(once, selected);
    assert Unlisted(once, selected) == [];
    assert EntryIds(twice[|once|..]) == [];
    assert twice == twice[..|once|] + twice[|once|..];
  }

  /** `handleAddItems`: the event with the extended checklist. */
  function AddItems(event: Event, selected: seq<Id>): (r: Event)
    ensures SameExcept(r, event, ChecklistField)
    ensures r.checklist == AddEntries(event.checklist, selected)
  {
    event.(checklist := AddEntries(event.checklist, selected))
  }

  /** The notes editor's update: the event with its notes replaced. */
  function UpdateNotes(event: Event, notes: string): (r: Event)
    ensures SameExcept(r, event, NotesField) && r.notes == Some(notes)
  {
    event.(notes := Some(notes))
  }

  /** The merchandise tab's update: the event with its merchandise list replaced. */
  function UpdateMerchandise(event: Event, merchandise: seq<MerchandiseItem>): (r: Event)
    ensures SameExcept(r, event, MerchandiseField) && r.merchandise == Some(merchandise)
  {
    event.(merchandise := Some(merchandise))
  }

  /** The equipment tab's update: the event with its equipment list replaced. */
  function UpdateEquipment(event: Event, equipment: seq<EquipmentRental>): (r: Event)
    ensures SameExcept(r, event, EquipmentField) && r.equipment == Some(equipment)
  {
    event.(equipment := Some(equipment))
  }

  /** The details editor's update: `{ ...event, details }`. */
  function UpdateDetails(event: Event, details: Details): (r: Event)
    ensures SameExcept(r, event, DetailsField) && r.details == Some(details)
  {
    event.(details := Some(details))
  }

  /** The event's merchandise list, empty when it has none: what the merchandise tab edits. */
  function MerchandiseOf(event: Event): seq<MerchandiseItem> {
    event.merchandise.GetOr([])
  }

  /** The event's equipment list, empty when it has none: what the equipment tab edits. */
  function EquipmentOf(event: Event): seq<EquipmentRental> {
    event.equipment.GetOr([])
  }

  /** The item ids on the event's checklist, in order: the ids the item picker must leave out. */
  function ExistingItemIds(event: Event): (r: seq<Id>)
    ensures forall id :: id in r <==> OnChecklist(event.checklist, id)
  {
    forall id ensures id in EntryIds(event.checklist) <==> OnChecklist(event.checklist, id) {
      OnChecklistIffInIds(event.checklist, id);
    }
    EntryIds(event.checklist)
  }
}
