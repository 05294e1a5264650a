/**
 * The template-authoring form: its fixed item catalogue with search and
 * category chips, the toggle that adds or removes an item id and recomputes
 * the template's category list, and the rule that disables submission.
 *
 * The category recomputation as written looks each selected id up in the
 * list of selected ids instead of in the catalogue (the updater's local
 * `items` hides the catalogue of the same name), so no category ever
 * survives. `CategoriesAsWritten` models that, `Categories` the intended
 * lookup in the catalogue. `ToggleItemAsWritten` uses the former,
 * `ToggleItem` the latter.
 */
module TemplateAuthoring {
  import opened Optional
  import opened Seqs
  import opened Types
  import Keyed
  import Catalogue

  /** The form's catalogue: a speaker (Audio) and a light (Lighting). */
  const ModalItems: seq<Item> := [
    Item("1", "Professional Speaker", "Audio", "High-quality powered speaker", 4, 3, None, None),
    Item("2", "LED Par Light", "Lighting", "RGB LED Par Can", 8, 8, None, None)]

  datatype TemplateForm = TemplateForm(name: string, eventType: EventType, categories: seq<string>, items: seq<Id>)

  /** The form on mount: an unnamed party template with nothing chosen, so it cannot be submitted. */
  function InitialForm(): (f: TemplateForm)
    ensures f.name == "" && f.eventType == Party && f.categories == [] && f.items == []
    ensures SubmitDisabled(f)
  {
    TemplateForm("", Party, [], [])
  }

  /** The category chips: the catalogue's distinct categories in first-appearance order. */
  lemma ModalCategories()
    ensures Catalogue.Categories(ModalItems) == ["Audio", "Lighting"]
  {
    var r := Catalogue.Categories(ModalItems);
    assert ModalItems[0].category == "Audio" && ModalItems[1].category == "Lighting";
    assert "Audio" in r && "Lighting" in r;
    assert forall c :: c in r ==> c == "Audio" || c == "Lighting";
    assert Seqs.IndexOf(Seqs.Map(ModalItems, Catalogue.CategoryOf), "Audio") == 0;
    assert Seqs.IndexOf(Seqs.Map(ModalItems, Catalogue.CategoryOf), "Lighting") == 1;
  }

  /** The listed catalogue items for the search box and the chosen category chip. */
  function FilteredItems(query: string, category: string): (r: seq<Item>)
    ensures forall x :: x in r <==> x in ModalItems && Catalogue.MatchesSearch(x, query) && Catalogue.MatchesCategory(x, category)
    ensures IsSubsequence(r, ModalItems)
    ensures forall x :: x in ModalItems && Catalogue.MatchesSearch(x, query) && Catalogue.MatchesCategory(x, category) ==>
      multiset(r)[x] == multiset(ModalItems)[x]
  {
    Catalogue.Search(ModalItems, query, category)
  }

  /** The id half of the toggle: every copy of a present id removed, an absent id appended. */
  function ToggleIds(items: seq<Id>, itemId: Id): (r: seq<Id>)
    ensures itemId in items ==> forall x :: x in r <==> x in items && x != itemId
    ensures itemId in items ==> IsSubsequence(r, items)
    ensures itemId in items ==> forall x :: x != itemId ==> multiset(r)[x] == multiset(items)[x]
    ensures itemId !in items ==> r == items + [itemId]
    ensures itemId in r <==> itemId !in items
  {
    if itemId in items then Keyed.Without(items, SelfKey, itemId) else items + [itemId]
  }

  /** Toggling an absent id on and off again gives back the list. */
  lemma ToggleIdsTwice(items: seq<Id>, itemId: Id)
    requires itemId !in items
    ensures ToggleIds(ToggleIds(items, itemId), itemId) == items
  {
    assert itemId in items + [itemId];
    Keyed.WithoutAfterAppend(items, SelfKey, itemId);
  }

  /** A list without repeats keeps none under the toggle. */
  lemma ToggleIdsNoDuplicates(items: seq<Id>, itemId: Id)
    requires NoDuplicates(items)
    ensures NoDuplicates(ToggleIds(items, itemId))
  {
    if itemId !in items {
      NoDuplicatesConcat(items, [itemId]);
    }
  }

  /** Whether an item carries the id. */
  function ItemHasId(id: Id): Item -> bool {
    (item: Item) => item.id == id
  }

  /** The category of the first catalogue item carrying the id, if any. */
  function CategoryOfId(catalogue: seq<Item>, id: Id): (r: Option<string>)
    ensures r.None? <==> forall k :: 0 <= k < |catalogue| ==> catalogue[k].id != id
    ensures r.Some? ==> exists k :: 0 <= k < |catalogue| && catalogue[k].id == id && catalogue[k].category == r.value
  {
    match Find(catalogue, ItemHasId(id))
    case Some(item) => Some(item.category)
    case None => None
  }

  /** Some chosen id names a catalogue item of category `c`. */
  predicate Covered(catalogue: seq<Item>, items: seq<Id>, c: string) {
    exists k :: 0 <= k < |items| && CategoryOfId(catalogue, items[k]) == Some(c)
  }

  function CoveredBy(catalogue: seq<Item>, items: seq<Id>): string -> bool {
    c => Covered(catalogue, items, c)
  }

  /**
   * The categories after a toggle as intended: the previous categories and
   * the toggled item's, each once, keeping those some chosen item has.
   */
  function Categories(catalogue: seq<Item>, previous: seq<string>, category: string, items: seq<Id>): (r: seq<string>)
    ensures NoDuplicates(r)
    ensures forall c :: c in r <==> (c in previous || c == category) && Covered(catalogue, items, c)
  {
    var candidates := Dedup(previous + [category]);
    FilterNoDuplicates(candidates, CoveredBy(catalogue, items));
    Filter(candidates, CoveredBy(catalogue, items))
  }

  /**
   * The property access `item.id` on an id string: a string primitive has no
   * `id` and no `category` property, so the access yields `undefined`.
   */
  function StringProperty(s: string, property: string): Option<string> {
    None
  }

  /** The lookup as written: the first chosen id string whose `id` property equals the id, which no string has. */
  function FindAmongIds(items: seq<Id>, id: Id): Option<Id> {
    Find(items, (s: Id) => StringProperty(s, "id") == Some(id))
  }

  /** The survival test as written: the lookup's `?.category` compared with the category. */
  predicate CoveredAsWritten(items: seq<Id>, c: string) {
    exists k :: 0 <= k < |items| &&
      match FindAmongIds(items, items[k]) {
        case Some(s) => StringProperty(s, "category") == Some(c)
        case None => false
      }
  }

  /** The category recomputation as written. */
  function CategoriesAsWritten(previous: seq<string>, category: string, items: seq<Id>): (r: seq<string>)
    ensures NoDuplicates(r)
    ensures IsSubsequence(r, Dedup(previous + [category]))
    ensures forall c :: c in r <==> (c in previous || c == category) && CoveredAsWritten(items, c)
  {
    FilterIsSubsequence(Dedup(previous + [category]), CoveredAsWrittenBy(items));
    FilterNoDuplicates(Dedup(previous + [category]), CoveredAsWrittenBy(items));
    Filter(Dedup(previous + [category]), CoveredAsWrittenBy(items))
  }

  function CoveredAsWrittenBy(items: seq<Id>): string -> bool {
    c => CoveredAsWritten(items, c)
  }

  /** As written, the recomputation always yields no categories, whatever was chosen. */
  lemma CategoriesAsWrittenAlwaysEmpty(previous: seq<string>, category: string, items: seq<Id>)
    ensures CategoriesAsWritten(previous, category, items) == []
  {
    var r := CategoriesAsWritten(previous, category, items);
    forall c ensures !CoveredAsWritten(items, c) {
      forall k | 0 <= k < |items| ensures FindAmongIds(items, items[k]).None? {
      }
    }
    FilterMultiplicity(Dedup(previous + [category]), CoveredAsWrittenBy(items));
    assert multiset(r) == multiset{};
  }

  /** The item toggle with the intended catalogue lookup: ids toggled, categories recomputed from the catalogue. */
  function ToggleItem(form: TemplateForm, catalogue: seq<Item>, itemId: Id, category: string): (r: TemplateForm)
    ensures r.items == ToggleIds(form.items, itemId)
    ensures r.categories == Categories(catalogue, form.categories, category, r.items)
    ensures r.name == form.name && r.eventType == form.eventType
  {
    var items := ToggleIds(form.items, itemId);
    form.(items := items, categories := Categories(catalogue, form.categories, category, items))
  }

  /** The item toggle as written: ids toggled, categories recomputed by the lookup among the id strings. */
  function ToggleItemAsWritten(form: TemplateForm, itemId: Id, category: string): (r: TemplateForm)
    ensures r.items == ToggleIds(form.items, itemId)
    ensures r.categories == []
  {
    var items := ToggleIds(form.items, itemId);
    CategoriesAsWrittenAlwaysEmpty(form.categories, category, items);
    form.(items := items, categories := CategoriesAsWritten(form.categories, category, items))
  }

  /** Choosing the speaker on a fresh form: the code as written records no category, the intended one `Audio`. */
  lemma ChoosingSpeakerLosesAudio()
    ensures ToggleItemAsWritten(InitialForm(), "1", "Audio").categories == []
    ensures ToggleItem(InitialForm(), ModalItems, "1", "Audio").categories == ["Audio"]
  {
    var r := ToggleItem(InitialForm(), ModalItems, "1", "Audio");
    assert r.items == ["1"];
    assert CategoryOfId(ModalItems, "1") == Some("Audio");
    assert Covered(ModalItems, r.items, "Audio");
    var cs := r.categories;
    assert "Audio" in cs;
    assert forall c :: c in cs ==> c == "Audio";
    assert |cs| == 1;
  }

  /** The category list is exactly the categories of the chosen items. */
  ghost predicate CategoriesExact(form: TemplateForm, catalogue: seq<Item>) {
    forall c :: c in form.categories <==> Covered(catalogue, form.items, c)
  }

  /**
   * When the toggled category is the toggled item's own, as the item list
   * passes it, the intended toggle keeps the category list exact.
   */
  lemma ToggleItemKeepsCategoriesExact(form: TemplateForm, catalogue: seq<Item>, itemId: Id, category: string)
    requires CategoriesExact(form, catalogue)
    requires CategoryOfId(catalogue, itemId) == Some(category)
    ensures CategoriesExact(ToggleItem(form, catalogue, itemId, category), catalogue)
  {
    var r := ToggleItem(form, catalogue, itemId, category);
    forall c ensures c in r.categories <==> Covered(catalogue, r.items, c) {
      if Covered(catalogue, r.items, c) {
        CoveredAfterToggle(form.items, catalogue, itemId, category, c);
      }
    }
  }

  /** A category some chosen id has after the toggle was had before it, or is the toggled item's. */
  lemma CoveredAfterToggle(items: seq<Id>, catalogue: seq<Item>, itemId: Id, category: string, c: string)
    requires CategoryOfId(catalogue, itemId) == Some(category)
    requires Covered(catalogue, ToggleIds(items, itemId), c)
    ensures Covered(catalogue, items, c) || c == category
  {
    var after := ToggleIds(items, itemId);
    if itemId in items {
      CoveredWithin(catalogue, after, items, c);
    } else {
      CoveredAfterAppend(catalogue, items, itemId, c);
    }
  }

  /** A category covered once an id is appended was covered before, or is that id's. */
  lemma CoveredAfterAppend(catalogue: seq<Item>, items: seq<Id>, itemId: Id, c: string)
    requires Covered(catalogue, items + [itemId], c)
    ensures Covered(catalogue, items, c) || CategoryOfId(catalogue, itemId) == Some(c)
  {
    var after := items + [itemId];
    var k :| 0 <= k < |after| && CategoryOfId(catalogue, after[k]) == Some(c);
    if k < |items| {
      assert after[k] == items[k];
      assert CategoryOfId(catalogue, items[k]) == Some(c);
    } else {
      assert after[k] == itemId;
    }
  }

  /** A category covered by some list of ids is covered by any list holding all of them. */
  lemma CoveredWithin(catalogue: seq<Item>, a: seq<Id>, b: seq<Id>, c: string)
    requires forall x :: x in a ==> x in b
    requires Covered(catalogue, a, c)
    ensures Covered(catalogue, b, c)
  {
    var k :| 0 <= k < |a| && CategoryOfId(catalogue, a[k]) == Some(c);
    assert a[k] in b;
    var j :| 0 <= j < |b| && b[j] == a[k];
    assert CategoryOfId(catalogue, b[j]) == Some(c);
  }

  /** The submit button is disabled while no item is chosen. */
  function SubmitDisabled(form: TemplateForm): (r: bool)
    ensures r <==> forall id :: id !in form.items
  {
    assert form.items != [] ==> form.items[0] in form.items;
    |form.items| == 0
  }

  /** Choosing an item not yet chosen enables submission; un-choosing the only item disables it. */
  lemma ToggleAndSubmit(form: TemplateForm, catalogue: seq<Item>, itemId: Id, category: string)
    ensures itemId !in form.items ==> !SubmitDisabled(ToggleItem(form, catalogue, itemId, category))
    ensures form.items == [itemId] ==> SubmitDisabled(ToggleItem(form, catalogue, itemId, category))
  {
    if form.items == [itemId] {
      var r := ToggleItem(form, catalogue, itemId, category).items;
      assert itemId in form.items;
      assert multiset(r) == multiset{} by {
        forall x ensures multiset(r)[x] == 0 {
          if x == itemId {
            assert x !in r;
          }
        }
      }
    }
  }

  /** `handleSubmit`: the form submitted as it stands, which has at least one item. */
  function Submit(form: TemplateForm): (d: TemplateDraft)
    requires !SubmitDisabled(form)
    ensures d.items != [] && d.items == form.items
    ensures d.name == form.name && d.eventType == form.eventType && d.categories == form.categories
  {
    TemplateDraft(form.name, form.eventType, form.categories, form.items)
  }
}
