# Event-prep app: a Dafny model of its list logic

The application keeps three kinds of records: inventory items, events with a
checklist of item ids, and checklist templates. Almost all of its behaviour is
list transformation: append, delete by id, replace by id, filter, search,
group, count. This project models that logic and proves what each operation
promises. The parts modelled are:

- the state container (`Store`): its item, event and template collections,
  their create/update/delete operations, and the snapshot that is persisted;
- the checklist engine (`EventDetails`, `CreateEvent`, `EventCard`,
  `ChecklistView`, `AddItems`): toggling an entry, adding picked items,
  deriving a checklist from a template, counting progress, grouping by
  category, and the item picker that leaves out items already listed;
- template authoring (`TemplateAuthoring`, `TemplateList`);
- the event categoriser (`EventList`): past, within the next seven days, later;
- the inventory page's filters and stock badge (`Inventory`);
- an event's equipment rentals and merchandise (`Equipment`, `Merchandise`).

Shared pieces sit in helper modules. `Seqs` holds filter, find, de-duplication
and subsequence. `Text` holds case-insensitive substring search. `Keyed` holds
delete-by-id and replace-by-id, written once over a key function. `Types`
holds the records and `Catalogue` the item search. Ids the application mints
from the clock are passed in as parameters. Timestamps are integers in
milliseconds, and the current time is a parameter too.

Where a component holds a list that its handlers replace (the store, the
inventory page's items, the template page's list, the picker's ticked ids),
the model is a class with a `seq` field and methods. Where a handler computes
a new list or event and hands it on, the model is a function.

Behaviours of the code a reader might not expect:

- The stock badge is "full" whenever `available == quantity`, so an item
  with 0 of 0 units is full. Only three badges exist: full, sold out and
  partial (src/components/InventoryList.tsx:97-103).
- An item update merges the patch without any stock rule, so it can set
  `available` above `quantity` (src/store/index.ts:52-58,
  `Store.PatchItemsAcceptsOverstock`).
- Toggling an id that is not on the checklist leaves the checklist as it is
  (src/components/events/EventDetails.tsx:24-26).
- The template form's category recomputation, as written, always yields an
  empty list (src/components/templates/CreateTemplateModal.tsx:62-68; see
  Findings).

## Model

| member | source | states |
|---|---|---|
| Store.AppStore.constructor | src/store/index.ts:35-40 | The store starts with empty collections, no loading flag, no error and no user. |
| Store.AppStore.SetUserId | src/store/index.ts:42 | Only the user id changes. |
| Store.AppStore.AddItem | src/store/index.ts:44-50 | Exactly one item is appended, carrying the draft's fields and the new id. The earlier items are an unchanged prefix, and nothing else in the state changes. |
| Store.Merge | src/store/index.ts:55 | `{ ...item, ...patch }`: each field the patch sets takes the patch's value, and every other field keeps the item's value. |
| Store.MergeOverlay | src/store/index.ts:55 | Merging two patches one after the other is the same as merging their overlay once. |
| Store.MergeIdempotent | src/store/index.ts:55 | Merging the same patch twice is the same as merging it once. |
| Store.MergeEmpty | src/store/index.ts:55 | The empty patch changes nothing. |
| Store.PatchItems | src/store/index.ts:52-58 | Length is kept. Items with the id are merged with the patch and all others are untouched. An unknown id leaves the list equal. |
| Store.AppStore.UpdateItem | src/store/index.ts:52-58 | Only `items` changes, and it becomes `PatchItems` of the old items. |
| Store.PatchItemsKeepsStock | src/store/index.ts:52-58 | If every item satisfies `0 <= available <= quantity` and the patch sets an admissible pair or neither count, the rule still holds for every item afterwards. |
| Store.PatchItemsAcceptsOverstock | src/store/index.ts:52-58 | Counterexample: a patch that sets 9 available on an 8-unit item goes through, so the update does not enforce the stock rule. |
| Store.AppStore.DeleteItem | src/store/index.ts:60-64 | Every item with the id is removed and the rest keep their order. Events, and with them checklists naming the item, are unchanged. |
| Store.Materialize | src/store/index.ts:66-74 | The new event carries the id and every draft field. A missing checklist, merchandise or equipment list defaults to empty, and missing details default to `{}`. |
| Store.AppStore.AddEvent | src/store/index.ts:66-77 | The materialised event is appended and returned. Nothing else changes. |
| Store.AppStore.UpdateEvent | src/store/index.ts:79-83 | Only `events` changes: each event with the given event's id is replaced by it (see `Keyed.Replace`). |
| Store.AppStore.DeleteEvent | src/store/index.ts:85-89 | Only `events` changes: every event with the id is removed and the rest keep their order. |
| Store.AppStore.AddTemplate | src/store/index.ts:91-97 | Exactly one template is appended, with the draft's fields and the new id. |
| Store.AppStore.DeleteTemplate | src/store/index.ts:99-103 | Templates with the id are removed. Events do not change, so checklists derived from a deleted template survive. |
| Store.Partialize | src/store/index.ts:107-112 | The snapshot holds exactly the user id, the items, the events and the templates. |
| Store.PartializeIgnoresTransient | src/store/index.ts:107-112 | The loading flag and the error message never affect the snapshot. |
| Store.PartializeKeepsPersisted | src/store/index.ts:107-112 | Two states with equal snapshots differ at most in the loading flag and the error. |
| Store.AppStore.Persisted | src/store/index.ts:105-112 | What persistence writes is `Partialize` of the current state. |
| Keyed.Without | src/store/index.ts:62 | `filter(x => x.id !== id)`: a record is kept exactly when its key differs. The result is an order-preserving subsequence, kept records keep their multiplicity, an absent id returns the list itself, and uniqueness is preserved. |
| Keyed.Replace | src/store/index.ts:81 | `map(x => x.id === v.id ? v : x)`: length and the key sequence are kept. Matching records become `v`, others stay where and as they were. An absent key returns the list itself. |
| Keyed.ReplaceIdempotent | src/store/index.ts:81 | Replacing twice with the same record is the same as replacing once. |
| Keyed.WithoutAfterReplace | src/store/index.ts:79-89 | Deleting an id after replacing its record leaves what deleting alone leaves. |
| Keyed.WithoutIdempotent | src/store/index.ts:85-89 | Deleting twice is the same as deleting once. |
| Keyed.WithoutAfterAppend | src/store/index.ts:91-103 | Appending a record under a fresh key and then deleting that key gives back the list. |
| EventDetails.ToggleEntries | src/components/events/EventDetails.tsx:24-26 | Length and the order of item ids are kept. Entries for the id have `completed` flipped and all other entries are identical. An absent id leaves the checklist equal. |
| EventDetails.ToggleEntriesTwice | src/components/events/EventDetails.tsx:24-26 | Toggling the same id twice restores the checklist. |
| EventDetails.ToggleItem | src/components/events/EventDetails.tsx:23-28 | Only the checklist of the event changes, and it becomes the toggled checklist. |
| EventDetails.Unlisted | src/components/events/EventDetails.tsx:31-32 | Keeps exactly the chosen ids that are not on the checklist, in the order chosen and with their multiplicity. The result is duplicate-free when the choice is. |
| EventDetails.AddEntries | src/components/events/EventDetails.tsx:31-37 | The old checklist is an unchanged prefix. It is followed by one open entry per unlisted chosen id, in selection order. No appended id was already present, and every chosen id ends up on the checklist. |
| EventDetails.AddEntriesKeepsIdsUnique | src/components/events/EventDetails.tsx:31-37 | If the checklist's ids are unique and the selection has no repeats, the result's ids are unique. |
| EventDetails.UnlistedOnEmpty | src/components/events/EventDetails.tsx:31-33 | On an empty checklist every chosen id counts as not yet listed, in order and with repeats. |
| EventDetails.AddEntriesKeepsRepeatedChoice | src/components/events/EventDetails.tsx:31-33 | An id chosen twice in one picking is added twice: the selection is not de-duplicated against itself. |
| EventDetails.AddEntriesIdempotent | src/components/events/EventDetails.tsx:31-37 | Adding the same picking a second time changes nothing. |
| EventDetails.AddItems | src/components/events/EventDetails.tsx:30-39 | Only the event's checklist changes, and it becomes the extended checklist. |
| EventDetails.UpdateNotes | src/components/events/EventDetails.tsx:41-46 | Only `notes` changes. |
| EventDetails.UpdateMerchandise | src/components/events/EventDetails.tsx:48-53 | Only `merchandise` changes. |
| EventDetails.UpdateEquipment | src/components/events/EventDetails.tsx:55-60 | Only `equipment` changes. |
| EventDetails.UpdateDetails | src/components/events/EventDetails.tsx:205 | Only `details` changes. |
| EventDetails.ExistingItemIds | src/components/events/EventDetails.tsx:229 | An id is passed to the picker as existing exactly when it is on the checklist. |
| CreateEvent.TemplateById | src/components/events/CreateEventModal.tsx:46 | `find` returns nothing exactly when no template has the id. Otherwise it returns the first template with the id. |
| CreateEvent.FromTemplate | src/components/events/CreateEventModal.tsx:48 | One entry per template item id, in template order (its id sequence is the template's items), all open. |
| CreateEvent.DeriveChecklist | src/components/events/CreateEventModal.tsx:46-49 | With no template matching the chosen id, including no choice, the checklist is empty. Otherwise it is derived from the first matching template. |
| CreateEvent.FromTemplateKeepsRepeats | src/components/events/CreateEventModal.tsx:48 | A template that repeats an item id yields a checklist that repeats it. |
| CreateEvent.ModalTemplateChecklist | src/components/events/CreateEventModal.tsx:31-39 | With the form's own template list, template 1 gives open entries 1 and 2. It is offered for concerts only. |
| CreateEvent.TemplateOptions | src/components/events/CreateEventModal.tsx:151-152 | The picker lists exactly the templates of the chosen type, in list order, each as often as in the list. |
| CreateEvent.InitialForm | src/components/events/CreateEventModal.tsx:12-29 | On mount, the form holds a concert with no name and no template. |
| CreateEvent.ChangeType | src/components/events/CreateEventModal.tsx:91-94 | Changing the type sets it, clears the chosen template and changes nothing else. |
| CreateEvent.SelectTemplate | src/components/events/CreateEventModal.tsx:145-149 | Only the chosen template id changes. It is one of the listed templates or none. |
| CreateEvent.FormOkPreserved | src/components/events/CreateEventModal.tsx:91-157 | Opening, changing the type and choosing a listed template all keep the chosen template either none or of the current type. |
| CreateEvent.DerivedChecklistMatchesType | src/components/events/CreateEventModal.tsx:43-57 | With distinct, non-empty template ids, a created event's checklist is empty or comes from a template of the event's own type. |
| CreateEvent.Submit | src/components/events/CreateEventModal.tsx:43-57 | The draft carries the form's fields and the derived checklist. |
| TemplateAuthoring.InitialForm | src/components/templates/CreateTemplateModal.tsx:16-21 | On mount, the form holds an unnamed party template with no category and no item, so it cannot be submitted. |
| TemplateAuthoring.ModalCategories | src/components/templates/CreateTemplateModal.tsx:45 | The form's category chips are `Audio`, `Lighting`: distinct, in first-appearance order. |
| Catalogue.Categories | src/components/templates/CreateTemplateModal.tsx:45 | `[...new Set(items.map(category))]`: duplicate-free, exactly the items' categories, in order of first appearance, never longer than the list. |
| Catalogue.Search | src/components/templates/CreateTemplateModal.tsx:47-52 | An order-preserving subsequence, keeping exactly the items whose name or description contains the query (ignoring case) and whose category is the chosen one, or any when none is chosen. |
| Catalogue.SearchEverything | src/components/templates/CreateTemplateModal.tsx:47-52 | An empty query with no category chosen returns the list itself. |
| TemplateAuthoring.FilteredItems | src/components/templates/CreateTemplateModal.tsx:47-52 | The form's listed catalogue items are those the search selects, in catalogue order, each as often as in the catalogue. |
| TemplateAuthoring.ToggleIds | src/components/templates/CreateTemplateModal.tsx:62-64 | A present id has every copy removed, the rest in order and with their multiplicity. An absent id is appended. The id ends up present exactly when it was absent. |
| TemplateAuthoring.ToggleIdsTwice | src/components/templates/CreateTemplateModal.tsx:62-64 | Toggling an absent id twice gives back the list. |
| TemplateAuthoring.ToggleIdsNoDuplicates | src/components/templates/CreateTemplateModal.tsx:62-64 | A duplicate-free list stays duplicate-free. |
| TemplateAuthoring.CategoryOfId | src/components/templates/CreateTemplateModal.tsx:67 | The catalogue lookup finds a category exactly when some catalogue item has the id, and it is that item's category. |
| TemplateAuthoring.Categories | src/components/templates/CreateTemplateModal.tsx:66-68 | The intended recomputation is duplicate-free. A category is kept exactly when it was previous or is the toggled item's, and some chosen item has it. |
| TemplateAuthoring.CategoriesAsWritten | src/components/templates/CreateTemplateModal.tsx:66-68 | The recomputation as written: the distinct previous and toggled categories, in order, keeping exactly those the lookup among the id strings covers. |
| TemplateAuthoring.CategoriesAsWrittenAlwaysEmpty | src/components/templates/CreateTemplateModal.tsx:66-68 | As written, the recomputation looks ids up among the id strings, so it yields no category whatever was chosen. |
| TemplateAuthoring.ToggleItemAsWritten | src/components/templates/CreateTemplateModal.tsx:60-72 | The toggle as written: ids toggled, categories always empty. |
| TemplateAuthoring.ToggleItem | src/components/templates/CreateTemplateModal.tsx:60-72 | The intended toggle: ids toggled, categories recomputed from the catalogue, name and type kept. |
| TemplateAuthoring.ChoosingSpeakerLosesAudio | src/components/templates/CreateTemplateModal.tsx:60-72 | On a fresh form, choosing the speaker records no category as written, and `Audio` as intended. |
| TemplateAuthoring.ToggleItemKeepsCategoriesExact | src/components/templates/CreateTemplateModal.tsx:66-68 | When the category passed is the toggled item's own, the intended toggle keeps the category list equal to the set of the chosen items' categories. |
| TemplateAuthoring.CoveredAfterToggle | src/components/templates/CreateTemplateModal.tsx:62-67 | A category some chosen item has after the toggle was had before it, or is the toggled item's. |
| TemplateAuthoring.CoveredAfterAppend | src/components/templates/CreateTemplateModal.tsx:62-67 | After appending an id, a category some chosen id has was covered before or is the appended id's own. |
| TemplateAuthoring.CoveredWithin | src/components/templates/CreateTemplateModal.tsx:62-67 | A category covered by some chosen ids stays covered by any list that keeps those ids. |
| TemplateAuthoring.SubmitDisabled | src/components/templates/CreateTemplateModal.tsx:193 | The create button is disabled exactly when no item id is chosen. |
| TemplateAuthoring.ToggleAndSubmit | src/components/templates/CreateTemplateModal.tsx:193 | Choosing a new item enables submission, and un-choosing the only item disables it. |
| TemplateAuthoring.Submit | src/components/templates/CreateTemplateModal.tsx:54-58 | The form is submitted as it stands, which always has at least one item. |
| TemplateList.TemplateBoard.constructor | src/components/templates/TemplateList.tsx:9-17 | The page starts with its one party template. |
| TemplateList.TemplateBoard.Create | src/components/templates/TemplateList.tsx:19-25 | Exactly one template is appended, with the draft's fields and the new id. Every earlier template stays in place. |
| TemplateList.TemplateBoard.Delete | src/components/templates/TemplateList.tsx:27-29 | Every template with the id is removed, the rest in order. An absent id changes nothing. |
| TemplateList.CreateThenDelete | src/components/templates/TemplateList.tsx:19-29 | Creating under a fresh id and deleting that id gives back the list. |
| EventList.Categorize | src/components/events/EventList.tsx:35-48 | The loop's buckets equal the past, upcoming and future filters of the list, so each keeps list order. Their sizes sum to the list length, and together they hold each event as often as the list does. |
| EventList.Partition | src/components/events/EventList.tsx:35-48 | The three filters split the list: sizes sum to its length and the multisets add up to it. |
| EventList.IsPast | src/components/events/EventList.tsx:39 | An event is past when its date is before now. |
| EventList.IsUpcoming | src/components/events/EventList.tsx:41 | An event not past and at most a week ahead is upcoming, and an upcoming event is never past. |
| EventList.IsFuture | src/components/events/EventList.tsx:43 | An event more than a week ahead is future, and a future event is neither past nor upcoming. |
| EventList.ExactlyOneClass | src/components/events/EventList.tsx:39-45 | Every event is past, upcoming or future, and never two of them. |
| EventList.BucketsByClass | src/components/events/EventList.tsx:39-45 | An event is past iff `date < now`, upcoming iff `0 <= date - now <= 7 days`, future iff `date - now` exceeds 7 days. Each bucket is a subsequence of the list. |
| EventList.WeekBoundary | src/components/events/EventList.tsx:41 | Both bounds of "upcoming" are inclusive: `now` and `now + 7 days` are upcoming, one millisecond later is future. |
| EventCard.CompletedItems | src/components/events/EventCard.tsx:11-12 | The completed count never exceeds the checklist length. It equals the length iff every entry is completed, and is 0 iff none is. |
| EventCard.CompletingRaisesCount | src/components/events/EventCard.tsx:11 | Completing one open entry raises the count by exactly one. |
| EventCard.Progress | src/components/events/EventCard.tsx:13 | Progress lies in 0..100. An empty checklist gives 0 without division. It is 100 iff the list is non-empty and all completed, and 0 iff none is completed. |
| EventCard.RatioBounds | src/components/events/EventCard.tsx:13 | A count out of a positive total is a ratio between 0 and 1, reaching an end exactly when the count does. |
| EventCard.TypeBadge | src/components/events/EventCard.tsx:30-43 | Concert is purple, exhibition blue, workshop green, festival yellow, each exactly. Every other type is indigo. |
| EventCard.TypeBadgeDistinct | src/components/events/EventCard.tsx:30-43 | Concert, exhibition, workshop and festival each have their own colour. Every other type falls to the default colour. |
| Inventory.InventoryView.constructor | src/components/InventoryList.tsx:12-31 | The page starts with its two items. |
| Inventory.InventoryView.AddItem | src/components/InventoryList.tsx:33-39 | One item with the new id is appended and every earlier item stays in place. |
| Inventory.FilteredItems | src/components/InventoryList.tsx:41-50 | An order-preserving subsequence, keeping exactly the items that pass the search, category and availability clauses, each as often as in the list. |
| Inventory.AllIsSearch | src/components/InventoryList.tsx:45 | With `all`, the result is what the search and category alone select. |
| Inventory.MatchesAvailability | src/components/InventoryList.tsx:45-47 | The availability clause; a filter value other than `all`, `available` or `low` admits no item. |
| Inventory.AvailabilityRules | src/components/InventoryList.tsx:45-47 | `all` admits every item and `available` exactly those with a free unit. `low` admits exactly `5*available < quantity`, which includes sold-out items with units. |
| Inventory.OnlyAvailabilityDecides | src/components/InventoryList.tsx:42-47 | With an empty query and no category, only the availability clause decides. |
| Inventory.LowKeepsSoldOut | src/components/InventoryList.tsx:46-47 | Concrete list: `low` keeps the sold-out item only, `available` the stocked one only. |
| Inventory.Badge | src/components/InventoryList.tsx:97-103 | Full iff `available == quantity`, tested first. Sold out iff no unit is free but some exist. Partial otherwise. |
| Inventory.BadgeCases | src/components/InventoryList.tsx:97-103 | 0 of 0 shows full. Under the stock rule, a partial badge means some but not all units are free. |
| AddItems.AvailableItems | src/components/events/checklist/AddItemsModal.tsx:24 | Exactly the catalogue items whose id is not existing, in catalogue order and with their multiplicity. |
| AddItems.PickerCategories | src/components/events/checklist/AddItemsModal.tsx:25 | The distinct categories of the offered items. |
| AddItems.AvailableCategory | src/components/events/checklist/AddItemsModal.tsx:24-25 | Some offered item has a category exactly when some catalogue item not yet on the checklist has it. |
| AddItems.PickerItems | src/components/events/checklist/AddItemsModal.tsx:27-32 | A subsequence of the offered items, selected by the search, each as often as in the catalogue, so it never lists an existing id. |
| AddItems.PickerSkipsListed | src/components/events/checklist/AddItemsModal.tsx:24-32 | Opened on an event, the picker never lists an item already on its checklist. |
| AddItems.PickedItemsAllAdded | src/components/events/EventDetails.tsx:30-39 | When only listed items are ticked, the add handler skips none of them. |
| AddItems.ItemPicker.constructor | src/components/events/checklist/AddItemsModal.tsx:20 | On mount, the picker has nothing ticked. |
| AddItems.ItemPicker.Change | src/components/events/checklist/AddItemsModal.tsx:102-107 | Ticking appends the id and unticking removes every copy, the rest in order. Ticking an unticked box or unticking keeps the ids duplicate-free. |
| AddItems.ItemPicker.CanSubmit | src/components/events/checklist/AddItemsModal.tsx:128 | The add button is enabled exactly when some id is ticked. |
| AddItems.ItemPicker.Submit | src/components/events/checklist/AddItemsModal.tsx:34-38 | Submit hands over the ticked ids unchanged, and only when some are ticked. |
| AddItems.TickThenUntick | src/components/events/checklist/AddItemsModal.tsx:102-107 | Ticking an unticked box and unticking it again restores the ticked ids. |
| ChecklistView.SectionCategories | src/components/events/checklist/ChecklistSection.tsx:12-15 | Duplicate-free, and exactly the categories of catalogue items the checklist references. |
| ChecklistView.CategoryGroup | src/components/events/checklist/ChecklistSection.tsx:20-23 | Exactly the referenced catalogue items of that category, in catalogue order, each as often as in the catalogue. |
| ChecklistView.EveryReferencedInOneGroup | src/components/events/checklist/ChecklistSection.tsx:12-23 | A referenced catalogue item is listed under its own category and under no other. |
| ChecklistView.OrphanNeverRendered | src/components/events/checklist/ChecklistSection.tsx:12-23 | An entry whose id names no catalogue item is shown in no group. |
| ChecklistView.EntryOf | src/components/events/checklist/ChecklistSection.tsx:30 | The lookup finds nothing exactly when the id is not on the checklist. Otherwise it finds the first entry with that id. |
| ChecklistView.GroupLookupSucceeds | src/components/events/checklist/ChecklistSection.tsx:29-30 | For every listed item the lookup succeeds, so the non-null assertion is safe. |
| ChecklistView.ShowsEmptyMessage | src/components/events/checklist/ChecklistSection.tsx:69 | The empty-checklist message shows exactly when no id is on the checklist. |
| ChecklistView.EmptyChecklistView | src/components/events/checklist/ChecklistSection.tsx:69 | An empty checklist shows the message and no group. |
| ChecklistView.OrphansOnlyShowNothing | src/components/events/checklist/ChecklistSection.tsx:12-23 | A non-empty checklist whose entries all name missing items shows neither a group nor the message. |
| Equipment.AddRental | src/components/events/equipment/EquipmentSection.tsx:15-16 | The rental is appended after the existing rentals, which are kept. |
| Equipment.EditRental | src/components/events/equipment/EquipmentSection.tsx:20-21 | Length is kept and rentals with the id become the edited rental. Others are unchanged, and an unknown id leaves the list equal. |
| Equipment.CancelRental | src/components/events/equipment/EquipmentSection.tsx:25-26 | Every rental with the id is removed. The rest keep their list order and their multiplicity. An unknown id leaves the list equal. |
| Equipment.CancelAfterAdd | src/components/events/equipment/EquipmentSection.tsx:15-26 | Adding under a fresh id and cancelling that id gives back the list. |
| Equipment.EditTwice | src/components/events/equipment/EquipmentSection.tsx:20-21 | Editing twice with the same rental is the same as editing once. |
| Equipment.Status | src/components/events/equipment/EquipmentSection.tsx:29-37 | Upcoming iff `now < pickup`. Completed iff `pickup <= now` and `now > return`. Active iff `pickup <= now <= return`. Exactly one holds. |
| Equipment.StatusAdvances | src/components/events/equipment/EquipmentSection.tsx:29-37 | As time passes a rental's status only moves forward. |
| Equipment.InvertedDatesNeverActive | src/components/events/equipment/EquipmentSection.tsx:34-36 | A rental whose return date precedes its pickup is never active. |
| Merchandise.AddItem | src/components/events/merchandise/MerchandiseSection.tsx:15-16 | One item is appended at the end and the earlier items are kept. |
| Merchandise.EditItem | src/components/events/merchandise/MerchandiseSection.tsx:20-21 | Length is kept and items with the id become the edited item. Others are unchanged, and an unknown id leaves the list equal. |
| Merchandise.DeleteItem | src/components/events/merchandise/MerchandiseSection.tsx:25-26 | Every item with the id is removed. The rest keep their list order and their multiplicity. An unknown id leaves the list equal. |
| Merchandise.DeleteAfterEdit | src/components/events/merchandise/MerchandiseSection.tsx:20-26 | Deleting after editing leaves what deleting alone leaves. |
| Merchandise.DeleteAfterAdd | src/components/events/merchandise/MerchandiseSection.tsx:15-26 | Adding under a fresh id and deleting that id gives back the list. |
| Text.IncludesAt | src/components/InventoryList.tsx:42-43 | `includes` holds exactly when the needle occurs at some offset of the haystack. |
| Text.EmptyQueryMatchesAll | src/components/InventoryList.tsx:42-43 | The empty query matches every text. |
| Text.QueryCaseInsensitive | src/components/InventoryList.tsx:42-43 | Searching ignores the ASCII case of the query. |

## Left out

- Id generation from `Date.now()`: ids are parameters. The source can mint the same id twice within one millisecond. Lemmas that need a fresh id say so in a `requires`.
- The clock: `now` is a parameter. `EventList.Categorize` uses one `now` for the whole pass, whereas the source reads the clock afresh for each event inside the reduce.
- Floating point: `EventCard.Progress` is an exact rational, not a double. `Inventory.IsLow` is the integer comparison `5*available < quantity` in place of `available < quantity * 0.2`. Prices and costs are integers, and `toFixed` formatting is not modelled.
- `Text.Lower` maps only the ASCII letters A-Z. The locale-independent Unicode case mapping of `toLowerCase` is not modelled.
- Date parsing and formatting (`new Date(string)`, `toLocaleDateString`), and `parseInt`/`parseFloat` in the forms: the event form's date is taken as already converted.
- Store.Merge: a patch key that is present with the value `undefined` overwrites the field in the source. An `ItemPatch` field is either set to a value or absent.
- Authentication through Clerk and the `useSyncAuth` hook, the persistence middleware and local storage I/O: only the `partialize` projection is modelled.
- The SQL layer (database setup script and client wrapper): asynchronous calls into libsql.
- State kept across reopenings of a modal: the item picker, the event form and the template form (src/components/events/checklist/AddItemsModal.tsx:20, src/components/events/CreateEventModal.tsx:12-29, src/components/templates/CreateTemplateModal.tsx:16-21) set their state only on mount. They stay mounted while closed and are not reset on submit. A second opening therefore shows the previous ticks and fields, and the picker's Add button is then enabled with the ids submitted last time. `AddItems.ItemPicker.constructor`, `CreateEvent.InitialForm` and `TemplateAuthoring.InitialForm` describe the first opening only.
- JSX markup, styling, modal open flags, tabs, routing and layout: presentation only.
- The form components that only copy fields (rental, merchandise, edit-event, add-item, notes and filter forms): no rule beyond copying.
- The event type enum is unified: `Wedding`, offered by the template and edit forms but missing from the declared event type, is one more constructor.
- The hard-coded lists inside components (the event form's templates, the template form's catalogue, the inventory page's and template page's starting lists) are modelled as constants separate from the store, as in the source.

## Findings

| source | as written | input that shows it | evidently intended | confidence | as-written member | corrected member |
|---|---|---|---|---|---|---|
| src/components/templates/CreateTemplateModal.tsx:62-68 | The updater declares a local `items` (the chosen id strings) that hides the catalogue `items`. So `items.find(item => item.id === id)` searches the id strings, `item.id` is undefined, and no category survives the filter. | A fresh form, tick the speaker (`toggleItem('1', 'Audio')`): categories become `[]`. | Look the id up in the catalogue and keep a category when some chosen item has it: categories become `['Audio']`. | high, not executed | TemplateAuthoring.ToggleItemAsWritten | TemplateAuthoring.ToggleItem |
