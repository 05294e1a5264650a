/**
 * An event's equipment rentals: add, edit and cancel, and the status shown
 * for a rental at a given moment. The resulting list goes to the event's
 * equipment update.
 */
module Equipment {
  import opened Types
  import opened Seqs
  import Keyed

  /** `handleAddRental`: the rental appended after the existing ones. */
  function AddRental(equipment: seq<EquipmentRental>, rental: EquipmentRental): (r: seq<EquipmentRental>)
    ensures |r| == |equipment| + 1 && r[..|equipment|] == equipment && r[|equipment|] == rental
  {
    Keyed.Append(equipment, rental)
  }

  /** `handleEditRental`: every rental with the edited one's id becomes it; the others stay as and where they were. */
  function EditRental(equipment: seq<EquipmentRental>, rental: EquipmentRental): (r: seq<EquipmentRental>)
    ensures |r| == |equipment|
    ensures forall k :: 0 <= k < |equipment| && equipment[k].id == rental.id ==> r[k] == rental
    ensures forall k :: 0 <= k < |equipment| && equipment[k].id != rental.id ==> r[k] == equipment[k]
    ensures (forall k :: 0 <= k < |equipment| ==> equipment[k].id != rental.id) ==> r == equipment
  {
    Keyed.Replace(equipment, RentalKey, rental)
  }

  /** `handleCancelRental`: every rental with that id removed, the rest in order. */
  function CancelRental(equipment: seq<EquipmentRental>, id: Id): (r: seq<EquipmentRental>)
    ensures forall x :: x in r <==> x in equipment && x.id != id
    ensures IsSubsequence(r, equipment)
    ensures forall x: EquipmentRental :: x.id != id ==> multiset(r)[x] == multiset(equipment)[x]
    ensures (forall k :: 0 <= k < |equipment| ==> equipment[k].id != id) ==> r == equipment
  {
    Keyed.Without(equipment, RentalKey, id)
  }

  /** Adding a rental under a new id and cancelling it gives back the list. */
  lemma CancelAfterAdd(equipment: seq<EquipmentRental>, rental: EquipmentRental)
    requires forall k :: 0 <= k < |equipment| ==> equipment[k].id != rental.id
    ensures CancelRental(AddRental(equipment, rental), rental.id) == equipment
  {
    Keyed.WithoutAfterAppend(equipment, RentalKey, rental);
  }

  /** Editing with the same rental twice is editing once. */
  lemma EditTwice(equipment: seq<EquipmentRental>, rental: EquipmentRental)
    ensures EditRental(EditRental(equipment, rental), rental) == EditRental(equipment, rental)
  {
    Keyed.ReplaceIdempotent(equipment, RentalKey, rental);
  }

  datatype RentalStatus = Upcoming | Active | Completed

  /** `getRentalStatus`: before pickup upcoming, after return completed, otherwise active. */
  function Status(rental: EquipmentRental, now: int): (s: RentalStatus)
    ensures s == Upcoming <==> now < rental.pickupDate
    ensures s == Completed <==> rental.pickupDate <= now && now > rental.returnDate
    ensures s == Active <==> rental.pickupDate <= now <= rental.returnDate
  {
    if now < rental.pickupDate then Upcoming
    else if now > rental.returnDate then Completed
    else Active
  }

  function Stage(s: RentalStatus): nat {
    match s
    case Upcoming => 0
    case Active => 1
    case Completed => 2
  }

  /** As time passes a rental's status only moves forward: upcoming, active, completed. */
  lemma StatusAdvances(rental: EquipmentRental, earlier: int, later: int)
    requires earlier <= later
    ensures Stage(Status(rental, earlier)) <= Stage(Status(rental, later))
  {
  }

  /** A rental returned before it is picked up is never shown as active. */
  lemma InvertedDatesNeverActive(rental: EquipmentRental, now: int)
    requires rental.returnDate < rental.pickupDate
    ensures Status(rental, now) != Active
  {
  }
}
