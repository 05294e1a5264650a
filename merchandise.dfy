/**
 * An event's merchandise list: add, edit and delete. The resulting list goes
 * to the event's merchandise update.
 */
module Merchandise {
  import opened Types
  import opened Seqs
  import Keyed

  /** `handleAddItem`: the item appended after the existing ones. */
  function AddItem(merchandise: seq<MerchandiseItem>, item: MerchandiseItem): (r: seq<MerchandiseItem>)
    ensures |r| == |merchandise| + 1 && r[..|merchandise|] == merchandise && r[|merchandise|] == item
  {
    Keyed.Append(merchandise, item)
  }

  /** `handleEditItem`: every item with the edited one's id becomes it; the others stay as and where they were. */
  function EditItem(merchandise: seq<MerchandiseItem>, item: MerchandiseItem): (r: seq<MerchandiseItem>)
    ensures |r| == |merchandise|
    ensures forall k :: 0 <= k < |merchandise| && merchandise[k].id == item.id ==> r[k] == item
    ensures forall k :: 0 <= k < |merchandise| && merchandise[k].id != item.id ==> r[k] == merchandise[k]
    ensures (forall k :: 0 <= k < |merchandise| ==> merchandise[k].id != item.id) ==> r == merchandise
  {
    Keyed.Replace(merchandise, MerchandiseKey, item)
  }

  /** `handleDeleteItem`: every item with that id removed, the rest in order; an unknown id changes nothing. */
  function DeleteItem(merchandise: seq<MerchandiseItem>, id: Id): (r: seq<MerchandiseItem>)
    ensures forall x :: x in r <==> x in merchandise && x.id != id
    ensures IsSubsequence(r, merchandise)
    ensures forall x: MerchandiseItem :: x.id != id ==> multiset(r)[x] == multiset(merchandise)[x]
    ensures (forall k :: 0 <= k < |merchandise| ==> merchandise[k].id != id) ==> r == merchandise
  {
    Keyed.Without(merchandise, MerchandiseKey, id)
  }

  /** Deleting an item after editing it leaves what deleting alone leaves. */
  lemma DeleteAfterEdit(merchandise: seq<MerchandiseItem>, item: MerchandiseItem)
    ensures DeleteItem(EditItem(merchandise, item), item.id) == DeleteItem(merchandise, item.id)
  {
    Keyed.WithoutAfterReplace(merchandise, MerchandiseKey, item);
  }

  /** Adding an item under a new id and deleting it gives back the list. */
  lemma DeleteAfterAdd(merchandise: seq<MerchandiseItem>, item: MerchandiseItem)
    requires forall k :: 0 <= k < |merchandise| ==> merchandise[k].id != item.id
    ensures DeleteItem(AddItem(merchandise, item), item.id) == merchandise
  {
    Keyed.WithoutAfterAppend(merchandise, MerchandiseKey, item);
  }
}
