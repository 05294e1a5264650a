/**
 * The records the application keeps: inventory items, events with their
 * checklists and planning data, checklist templates, and the merchandise and
 * equipment-rental entries of an event.
 *
 * Timestamps are integers (milliseconds since the epoch); amounts of money
 * are integers in the smallest currency unit.
 */
module Types {
  import opened Optional

  /** Identifiers are strings; the application mints them from the clock. */
  type Id = string

  /**
   * The event kinds. The six declared for an event, plus `Wedding`, which the
   * template form and the edit form offer although the declared event type
   * does not list it; one enum serves events and templates.
   */
  datatype EventType = Concert | Exhibition | Workshop | Festival | Party | Other | Wedding

  /** A reusable physical asset. Nothing in the application enforces `0 <= available <= quantity`. */
  datatype Item = Item(
    id: Id,
    name: string,
    category: string,
    description: string,
    quantity: int,
    available: int,
    notes: Option<string>,
    lastUsed: Option<int>)

  /** An item as the add form submits it: every field but the id. */
  datatype ItemDraft = ItemDraft(
    name: string,
    category: string,
    description: string,
    quantity: int,
    available: int,
    notes: Option<string>,
    lastUsed: Option<int>)
  {
    /** The draft completed with the id. */
    function WithId(id: Id): (r: Item)
      ensures r.id == id
      ensures r.name == name && r.category == category && r.description == description
      ensures r.quantity == quantity && r.available == available
      ensures r.notes == notes && r.lastUsed == lastUsed
    {
      Item(id, name, category, description, quantity, available, notes, lastUsed)
    }
  }

  /** One line of an event's checklist. */
  datatype ChecklistEntry = ChecklistEntry(itemId: Id, completed: bool)

  /** A reusable, event-type-scoped list of item ids with the categories they cover. */
  datatype ChecklistTemplate = ChecklistTemplate(
    id: Id,
    name: string,
    eventType: EventType,
    categories: seq<string>,
    items: seq<Id>)

  /** A template as the authoring form submits it: every field but the id. */
  datatype TemplateDraft = TemplateDraft(
    name: string,
    eventType: EventType,
    categories: seq<string>,
    items: seq<Id>)
  {
    /** The draft completed with the id. */
    function WithId(id: Id): (r: ChecklistTemplate)
      ensures r.id == id && r.name == name && r.eventType == eventType
      ensures r.categories == categories && r.items == items
    {
      ChecklistTemplate(id, name, eventType, categories, items)
    }
  }

  datatype MerchandiseStatus = Draft | Ordered | Received

  /** Merchandise planned for an event; variants and order details are kept as opaque text. */
  datatype MerchandiseItem = MerchandiseItem(
    id: Id,
    name: string,
    description: string,
    price: int,
    imageUrl: Option<string>,
    variants: seq<string>,
    status: MerchandiseStatus,
    orderDetails: Option<string>)

  datatype Supplier = Supplier(name: string, contact: string, phone: string)

  /** Equipment rented for an event; `status` is the free-text booking status the form stores. */
  datatype EquipmentRental = EquipmentRental(
    id: Id,
    name: string,
    description: string,
    quantity: int,
    pickupDate: int,
    returnDate: int,
    delivery: bool,
    deliveryAddress: Option<string>,
    supplier: Supplier,
    status: string,
    cost: int)

  datatype Ticketing = Ticketing(
    provider: Option<string>,
    url: Option<string>,
    price: Option<int>,
    capacity: Option<int>,
    soldCount: Option<int>)

  datatype Promotion = Promotion(
    budget: Option<int>,
    channels: Option<seq<string>>,
    materials: Option<seq<string>>,
    targetAudience: Option<seq<string>>)

  /**
   * The open-ended details record: the known optional fields, plus `extra`
   * for the free-form keys the declared type admits.
   */
  datatype Details = Details(
    venueContact: Option<string>,
    contactPhone: Option<string>,
    loadInTime: Option<string>,
    soundCheck: Option<string>,
    timeline: Option<map<string, string>>,
    ticketing: Option<Ticketing>,
    promotion: Option<Promotion>,
    extra: map<string, string>)

  /** `{}`: a details record with no field set. */
  const NoDetails := Details(None, None, None, None, None, None, None, map[])

  datatype Artist = Artist(id: Id, name: string, genre: Option<string>, email: string, phone: Option<string>)

  datatype Performance = Performance(id: Id, artistId: Id, setTime: int, duration: int)

  /** Income and expense amounts, by heading (tickets, venue, ...). */
  datatype Budget = Budget(income: map<string, int>, expenses: map<string, int>)

  /** A scheduled occurrence with its checklist and planning data. */
  datatype Event = Event(
    id: Id,
    name: string,
    date: int,
    eventType: EventType,
    venue: Option<string>,
    expectedAttendees: Option<int>,
    checklist: seq<ChecklistEntry>,
    notes: Option<string>,
    details: Option<Details>,
    artists: Option<seq<Artist>>,
    performances: Option<seq<Performance>>,
    merchandise: Option<seq<MerchandiseItem>>,
    equipment: Option<seq<EquipmentRental>>,
    budget: Option<Budget>)

  /**
   * An event as a form submits it: every field but the id. The store defends
   * against a missing checklist, details, merchandise or equipment list, so
   * those four are optional here.
   */
  datatype EventDraft = EventDraft(
    name: string,
    date: int,
    eventType: EventType,
    venue: Option<string>,
    expectedAttendees: Option<int>,
    checklist: Option<seq<ChecklistEntry>>,
    notes: Option<string>,
    details: Option<Details>,
    artists: Option<seq<Artist>>,
    performances: Option<seq<Performance>>,
    merchandise: Option<seq<MerchandiseItem>>,
    equipment: Option<seq<EquipmentRental>>,
    budget: Option<Budget>)

  /** The ids of a checklist's entries, in checklist order. */
  function EntryIds(checklist: seq<ChecklistEntry>): (r: seq<Id>)
    ensures |r| == |checklist|
    ensures forall k :: 0 <= k < |checklist| ==> r[k] == checklist[k].itemId
  {
    seq(|checklist|, k requires 0 <= k < |checklist| => checklist[k].itemId)
  }

  /** Some checklist entry is for the id. */
  predicate OnChecklist(checklist: seq<ChecklistEntry>, id: Id) {
    exists k :: 0 <= k < |checklist| && checklist[k].itemId == id
  }

  lemma OnChecklistIffInIds(checklist: seq<ChecklistEntry>, id: Id)
    ensures OnChecklist(checklist, id) <==> id in EntryIds(checklist)
  {
    if id in EntryIds(checklist) {
      var k :| 0 <= k < |EntryIds(checklist)| && EntryIds(checklist)[k] == id;
      assert checklist[k].itemId == id;
    }
  }

  /** An id is on a joined checklist exactly when it is on one of the two parts. */
  lemma OnChecklistAppend(a: seq<ChecklistEntry>, b: seq<ChecklistEntry>, id: Id)
    ensures OnChecklist(a + b, id) <==> OnChecklist(a, id) || OnChecklist(b, id)
  {
    if OnChecklist(a + b, id) {
      var k :| 0 <= k < |a + b| && (a + b)[k].itemId == id;
      if k < |a| {
        assert a[k] == (a + b)[k];
      } else {
        assert b[k - |a|] == (a + b)[k];
      }
    }
    if OnChecklist(a, id) {
      var k :| 0 <= k < |a| && a[k].itemId == id;
      assert (a + b)[k] == a[k];
    }
    if OnChecklist(b, id) {
      var k :| 0 <= k < |b| && b[k].itemId == id;
      assert (a + b)[|a| + k] == b[k];
    }
  }

  function ItemKey(i: Item): Id { i.id }
  function EventKey(e: Event): Id { e.id }
  function TemplateKey(t: ChecklistTemplate): Id { t.id }
  function RentalKey(r: EquipmentRental): Id { r.id }
  function MerchandiseKey(m: MerchandiseItem): Id { m.id }
  /** A plain id is its own key (lists of selected ids). */
  function SelfKey(id: Id): Id { id }
}
