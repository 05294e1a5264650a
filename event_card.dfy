/**
 * The event card's checklist progress and its type badge.
 *
 * Progress is an exact rational percentage here; the card computes it in
 * floating point.
 */
module EventCard {
  import opened Seqs
  import opened Types

  function IsCompleted(e: ChecklistEntry): bool { e.completed }

  /** How many checklist entries are completed. */
  function CompletedItems(checklist: seq<ChecklistEntry>): (n: nat)
    ensures n <= |checklist|
    ensures n == |checklist| <==> forall k :: 0 <= k < |checklist| ==> checklist[k].completed
    ensures n == 0 <==> forall k :: 0 <= k < |checklist| ==> !checklist[k].completed
  {
    var done := Filter(checklist, IsCompleted);
    assert |done| == |checklist| ==> forall k :: 0 <= k < |checklist| ==> checklist[k].completed by {
      if |done| == |checklist| {
        FilterFullLength(checklist, IsCompleted);
      }
    }
    assert (forall k :: 0 <= k < |checklist| ==> checklist[k].completed) ==> |done| == |checklist| by {
      if forall k :: 0 <= k < |checklist| ==> checklist[k].completed {
        FilterKeepsAll(checklist, IsCompleted);
      }
    }
    assert (forall k :: 0 <= k < |checklist| ==> !checklist[k].completed) ==> |done| == 0 by {
      FilterMultiplicity(checklist, IsCompleted);
      if forall k :: 0 <= k < |checklist| ==> !checklist[k].completed {
        assert multiset(done) == multiset{};
      }
    }
    assert |done| == 0 ==> forall k :: 0 <= k < |checklist| ==> !checklist[k].completed by {
      if |done| == 0 {
        forall k | 0 <= k < |checklist| ensures !checklist[k].completed {
          assert checklist[k] in checklist;
        }
      }
    }
    |done|
  }

  /** The share of completed entries as an exact percentage; 0 for an empty checklist. */
  function Progress(checklist: seq<ChecklistEntry>): (p: real)
    ensures 0.0 <= p <= 100.0
    ensures |checklist| == 0 ==> p == 0.0
    ensures p == 100.0 <==> |checklist| > 0 && forall k :: 0 <= k < |checklist| ==> checklist[k].completed
    ensures p == 0.0 <==> forall k :: 0 <= k < |checklist| ==> !checklist[k].completed
  {
    if |checklist| == 0 then 0.0
    else
      var n := CompletedItems(checklist) as real;
      var total := |checklist| as real;
      RatioBounds(n, total);
      (n / total) * 100.0
  }

  /** A count out of a positive total is a ratio between 0 and 1, at an end exactly when the count is. */
  lemma RatioBounds(n: real, total: real)
    requires 0.0 <= n <= total && total > 0.0
    ensures 0.0 <= n / total <= 1.0
    ensures n / total == 1.0 <==> n == total
    ensures n / total == 0.0 <==> n == 0.0
  {
    assert n / total * total == n;
  }

  /** Completing one more open entry raises the completed count by one. */
  lemma {:induction false} CompletingRaisesCount(checklist: seq<ChecklistEntry>, k: nat)
    requires k < |checklist| && !checklist[k].completed
    ensures CompletedItems(checklist[k := checklist[k].(completed := true)]) == CompletedItems(checklist) + 1
    decreases |checklist|
  {
    var after := checklist[k := checklist[k].(completed := true)];
    if k == 0 {
      assert after[1..] == checklist[1..];
    } else {
      assert after[1..] == checklist[1..][k - 1 := checklist[k].(completed := true)];
      CompletingRaisesCount(checklist[1..], k - 1);
    }
  }

  /** The badge colour classes. */
  datatype Badge = Purple | Blue | Green | Yellow | Indigo

  /** `getEventTypeIcon`: four types have their own colour, every other type the default. */
  function TypeBadge(t: EventType): (r: Badge)
    ensures t == Concert <==> r == Purple
    ensures t == Exhibition <==> r == Blue
    ensures t == Workshop <==> r == Green
    ensures t == Festival <==> r == Yellow
    ensures r == Indigo <==> !(t == Concert || t == Exhibition || t == Workshop || t == Festival)
  {
    match t
    case Concert => Purple
    case Exhibition => Blue
    case Workshop => Green
    case Festival => Yellow
    case _ => Indigo
  }

  /** Two types share a colour only when both fall back to the default. */
  lemma TypeBadgeDistinct(a: EventType, b: EventType)
    ensures TypeBadge(a) == TypeBadge(b) && a != b ==> TypeBadge(a) == Indigo
    ensures TypeBadge(a) == Indigo <==> a == Party || a == Other || a == Wedding
  {
  }
}
