/**
 * The template page's own list of templates, with its create and delete
 * handlers. The list is component state, separate from the store's.
 */
module TemplateList {
  import opened Types
  import Keyed

  /** The page's starting list: one party template covering items 1 and 2. */
  const InitialTemplates: seq<ChecklistTemplate> :=
    [ChecklistTemplate("1", "Basic Party Setup", Party, ["Audio", "Lighting"], ["1", "2"])]

  class TemplateBoard {
    var templates: seq<ChecklistTemplate>

    constructor ()
      ensures templates == InitialTemplates
    {
      templates := InitialTemplates;
    }

    /** `handleCreateTemplate`: the draft with the new id appended; every earlier template stays in place. */
    method Create(draft: TemplateDraft, freshId: Id)
      modifies this
      ensures templates == old(templates) + [draft.WithId(freshId)]
      ensures |templates| == |old(templates)| + 1 && templates[..|old(templates)|] == old(templates)
    {
      templates := templates + [draft.WithId(freshId)];
      assert templates[..|old(templates)|] == old(templates);
    }

    /** `handleDeleteTemplate`: every template with that id removed, the rest in order; an absent id changes nothing. */
    method Delete(id: Id)
      modifies this
      ensures templates == Keyed.Without(old(templates), TemplateKey, id)
    {
      templates := Keyed.Without(templates, TemplateKey, id);
    }
  }

  /** Creating a template under an id no template has, then deleting that id, gives back the list. */
  lemma CreateThenDelete(templates: seq<ChecklistTemplate>, draft: TemplateDraft, freshId: Id)
    requires forall k :: 0 <= k < |templates| ==> templates[k].id != freshId
    ensures Keyed.Without(templates + [draft.WithId(freshId)], TemplateKey, freshId) == templates
  {
    assert TemplateKey(draft.WithId(freshId)) == freshId;
    Keyed.WithoutAfterAppend(templates, TemplateKey, draft.WithId(freshId));
  }
}
