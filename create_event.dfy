/**
 * The event-creation form: its template picker, which offers only templates
 * of the chosen event type; the reset of the chosen template when the type
 * changes; and the checklist derived from the chosen template on submit.
 *
 * The date field is taken as already converted to milliseconds.
 */
module CreateEvent {
  import opened Optional
  import opened Seqs
  import opened Types

  /** The template list the form holds: one concert template covering items 1 and 2. */
  const ModalTemplates: seq<ChecklistTemplate> :=
    [ChecklistTemplate("1", "Basic Concert Setup", Concert, ["Audio", "Lighting"], ["1", "2"])]

  /** Whether a template carries the id. */
  function HasId(id: Id): ChecklistTemplate -> bool {
    (t: ChecklistTemplate) => t.id == id
  }

  /** The first template carrying the id, if any. */
  function TemplateById(templates: seq<ChecklistTemplate>, id: Id): (r: Option<ChecklistTemplate>)
    ensures r.None? <==> forall k :: 0 <= k < |templates| ==> templates[k].id != id
    ensures r.Some? ==> exists k :: (0 <= k < |templates| && templates[k] == r.value && templates[k].id == id
      && forall j :: 0 <= j < k ==> templates[j].id != id)
  {
    Find(templates, HasId(id))
  }

  /** An open checklist entry for each of the template's item ids, in the template's order. */
  function FromTemplate(t: ChecklistTemplate): (r: seq<ChecklistEntry>)
    ensures EntryIds(r) == t.items
    ensures forall k :: 0 <= k < |r| ==> !r[k].completed
  {
    Map(t.items, (id: Id) => ChecklistEntry(id, false))
  }

  /** The checklist handed to the new event: from the first template with the chosen id, else empty. */
  function DeriveChecklist(templates: seq<ChecklistTemplate>, selected: Id): (r: seq<ChecklistEntry>)
    ensures (forall k :: 0 <= k < |templates| ==> templates[k].id != selected) ==> r == []
    ensures forall k :: (0 <= k < |templates| && templates[k].id == selected
      && (forall j :: 0 <= j < k ==> templates[j].id != selected)) ==> r == FromTemplate(templates[k])
  {
    match TemplateById(templates, selected)
    case Some(t) =>
      forall k | 0 <= k < |templates| && templates[k].id == selected
          && (forall j :: 0 <= j < k ==> templates[j].id != selected)
        ensures templates[k] == t
      {
        var m :| 0 <= m < |templates| && templates[m] == t && templates[m].id == selected
          && forall j :: 0 <= j < m ==> templates[j].id != selected;
      }
      FromTemplate(t)
    case None => []
  }

  /** A template repeating an item id yields a checklist repeating it: nothing is de-duplicated. */
  lemma FromTemplateKeepsRepeats()
    ensures var t := ChecklistTemplate("t", "Repeat", Party, [], ["1", "1"]);
            FromTemplate(t) == [ChecklistEntry("1", false), ChecklistEntry("1", false)]
  {
    var t := ChecklistTemplate("t", "Repeat", Party, [], ["1", "1"]);
    var r := FromTemplate(t);
    assert EntryIds(r) == ["1", "1"];
    assert |r| == 2 && r[0].itemId == "1" && r[1].itemId == "1";
  }

  /** Whether a template is for the event type. */
  function OfType(eventType: EventType): ChecklistTemplate -> bool {
    (t: ChecklistTemplate) => t.eventType == eventType
  }

  /** The templates the picker lists for the chosen event type, in list order. */
  function TemplateOptions(templates: seq<ChecklistTemplate>, eventType: EventType): (r: seq<ChecklistTemplate>)
    ensures forall t :: t in r <==> t in templates && t.eventType == eventType
    ensures IsSubsequence(r, templates)
    ensures forall t :: t in templates && t.eventType == eventType ==> multiset(r)[t] == multiset(templates)[t]
  {
    FilterIsSubsequence(templates, OfType(eventType));
    FilterMultiplicity(templates, OfType(eventType));
    Filter(templates, OfType(eventType))
  }

  /** The form's state: the fields an event is created from, and the chosen template id (`""` for none). */
  datatype EventForm = EventForm(
    name: string,
    date: int,
    eventType: EventType,
    venue: Option<string>,
    expectedAttendees: Option<int>,
    details: Details,
    budget: Budget,
    selectedTemplate: Id)

  /** The form on mount: a concert, no template, empty promotion lists, empty budget. */
  function InitialForm(date: int): (f: EventForm)
    ensures f.eventType == Concert && f.selectedTemplate == "" && f.name == ""
  {
    EventForm("", date, Concert, None, None,
      NoDetails.(ticketing := Some(Ticketing(None, None, None, None, None)),
                 promotion := Some(Promotion(None, Some([]), Some([]), Some([])))),
      Budget(map[], map[]),
      "")
  }

  /** The type selector's handler: the new type, and the chosen template cleared. */
  function ChangeType(form: EventForm, eventType: EventType): (r: EventForm)
    ensures r.eventType == eventType && r.selectedTemplate == ""
    ensures r == form.(eventType := eventType, selectedTemplate := "")
  {
    form.(eventType := eventType, selectedTemplate := "")
  }

  /** The template selector's handler: one of the listed templates' ids, or `""` for none. */
  function SelectTemplate(form: EventForm, templates: seq<ChecklistTemplate>, id: Id): (r: EventForm)
    requires id == "" || exists t :: t in TemplateOptions(templates, form.eventType) && t.id == id
    ensures r == form.(selectedTemplate := id)
  {
    form.(selectedTemplate := id)
  }

  /** The chosen template is none, or a listed template of the form's current type. */
  predicate FormOk(form: EventForm, templates: seq<ChecklistTemplate>) {
    form.selectedTemplate == "" || exists t :: t in templates && t.eventType == form.eventType && t.id == form.selectedTemplate
  }

  /** The initial form, a type change and a template choice all keep `FormOk`. */
  lemma FormOkPreserved(form: EventForm, templates: seq<ChecklistTemplate>, eventType: EventType, id: Id)
    ensures FormOk(InitialForm(form.date), templates)
    ensures FormOk(ChangeType(form, eventType), templates)
    ensures (id == "" || exists t :: t in TemplateOptions(templates, form.eventType) && t.id == id) ==>
      FormOk(SelectTemplate(form, templates, id), templates)
  {
  }

  /**
   * With template ids that are distinct and never empty, a form that keeps
   * `FormOk` creates an event whose checklist is empty or is derived from a
   * template of the event's own type.
   */
  lemma DerivedChecklistMatchesType(form: EventForm, templates: seq<ChecklistTemplate>)
    requires FormOk(form, templates)
    requires forall k :: 0 <= k < |templates| ==> templates[k].id != ""
    requires forall i, j :: 0 <= i < j < |templates| ==> templates[i].id != templates[j].id
    ensures form.selectedTemplate == "" ==> DeriveChecklist(templates, form.selectedTemplate) == []
    ensures form.selectedTemplate != "" ==> exists k :: (0 <= k < |templates|
      && templates[k].eventType == form.eventType
      && DeriveChecklist(templates, form.selectedTemplate) == FromTemplate(templates[k]))
  {
    if form.selectedTemplate != "" {
      var t :| t in templates && t.eventType == form.eventType && t.id == form.selectedTemplate;
      var k :| 0 <= k < |templates| && templates[k] == t;
      assert forall j :: 0 <= j < k ==> templates[j].id != form.selectedTemplate;
    }
  }

  /** `handleSubmit`: the form's fields, the converted date and the derived checklist. */
  function Submit(form: EventForm, templates: seq<ChecklistTemplate>): (d: EventDraft)
    ensures d.checklist == Some(DeriveChecklist(templates, form.selectedTemplate))
    ensures d.name == form.name && d.date == form.date && d.eventType == form.eventType
    ensures d.venue == form.venue && d.expectedAttendees == form.expectedAttendees
    ensures d.details == Some(form.details) && d.budget == Some(form.budget)
    ensures d.notes.None? && d.artists.None? && d.performances.None?
    ensures d.merchandise.None? && d.equipment.None?
  {
    EventDraft(form.name, form.date, form.eventType, form.venue, form.expectedAttendees,
      Some(DeriveChecklist(templates, form.selectedTemplate)),
      None, Some(form.details), None, None, None, None, Some(form.budget))
  }

  /** On the form's own template list, choosing template 1 gives open entries for items 1 and 2. */
  lemma ModalTemplateChecklist()
    ensures DeriveChecklist(ModalTemplates, "1") == [ChecklistEntry("1", false), ChecklistEntry("2", false)]
    ensures TemplateOptions(ModalTemplates, Concert) == ModalTemplates
    ensures TemplateOptions(ModalTemplates, Party) == []
  {
    var r := DeriveChecklist(ModalTemplates, "1");
    assert r == FromTemplate(ModalTemplates[0]);
    assert EntryIds(r) == ["1", "2"];
    assert ModalTemplates[0] in TemplateOptions(ModalTemplates, Concert);
  }
}
