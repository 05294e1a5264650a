/**
 * The events page's split of the event list into past events, events in the
 * coming week and events further out. Dates and the current time are
 * milliseconds since the epoch.
 */
module EventList {
  import opened Seqs
  import opened Types

  /** Seven days in milliseconds. */
  const Week := 7 * 24 * 60 * 60 * 1000

  /** The event's date is before now. */
  predicate IsPast(e: Event, now: int) {
    e.date < now
  }

  /** Not past, and at most a week ahead, both bounds inclusive. */
  predicate IsUpcoming(e: Event, now: int)
    ensures IsUpcoming(e, now) ==> !IsPast(e, now)
  {
    0 <= e.date - now <= Week
  }

  /** More than a week ahead: neither past nor upcoming. */
  predicate IsFuture(e: Event, now: int)
    ensures IsFuture(e, now) ==> !IsPast(e, now) && !IsUpcoming(e, now)
  {
    e.date - now > Week
  }

  function PastAt(now: int): Event -> bool { e => IsPast(e, now) }
  function UpcomingAt(now: int): Event -> bool { e => IsUpcoming(e, now) }
  function FutureAt(now: int): Event -> bool { e => IsFuture(e, now) }

  /** Every event is in exactly one of the three classes. */
  lemma ExactlyOneClass(e: Event, now: int)
    ensures IsPast(e, now) || IsUpcoming(e, now) || IsFuture(e, now)
    ensures !(IsPast(e, now) && IsUpcoming(e, now))
    ensures !(IsPast(e, now) && IsFuture(e, now))
    ensures !(IsUpcoming(e, now) && IsFuture(e, now))
  {
  }

  /**
   * The `categorizedEvents` reduce: each event pushed, in list order, onto
   * the bucket its date selects. One `now` serves the whole pass.
   */
  method Categorize(events: seq<Event>, now: int) returns (upcoming: seq<Event>, future: seq<Event>, past: seq<Event>)
    ensures past == Filter(events, PastAt(now))
    ensures upcoming == Filter(events, UpcomingAt(now))
    ensures future == Filter(events, FutureAt(now))
    ensures |past| + |upcoming| + |future| == |events|
    ensures multiset(past) + multiset(upcoming) + multiset(future) == multiset(events)
  {
    upcoming, future, past := [], [], [];
    var i := 0;
    while i < |events|
      invariant 0 <= i <= |events|
      invariant past == Filter(events[..i], PastAt(now))
      invariant upcoming == Filter(events[..i], UpcomingAt(now))
      invariant future == Filter(events[..i], FutureAt(now))
    {
      var e := events[i];
      FilterSnoc(events, i, PastAt(now));
      FilterSnoc(events, i, UpcomingAt(now));
      FilterSnoc(events, i, FutureAt(now));
      if e.date < now {
        past := past + [e];
      } else if e.date - now <= Week {
        upcoming := upcoming + [e];
      } else {
        future := future + [e];
      }
      i := i + 1;
    }
    assert events[..i] == events;
    Partition(events, now);
  }

  /** The three buckets together hold every event exactly as often as the list does. */
  lemma {:induction false} Partition(events: seq<Event>, now: int)
    ensures |Filter(events, PastAt(now))| + |Filter(events, UpcomingAt(now))| + |Filter(events, FutureAt(now))| == |events|
    ensures multiset(Filter(events, PastAt(now))) + multiset(Filter(events, UpcomingAt(now)))
      + multiset(Filter(events, FutureAt(now))) == multiset(events)
    decreases |events|
  {
    if events != [] {
      Partition(events[1..], now);
      FilterCons(events, PastAt(now));
      FilterCons(events, UpcomingAt(now));
      FilterCons(events, FutureAt(now));
      assert multiset(events) == multiset{events[0]} + multiset(events[1..]) by {
        assert events == [events[0]] + events[1..];
      }
      var e := events[0];
      if IsPast(e, now) {
        assert !IsUpcoming(e, now) && !IsFuture(e, now);
      } else if IsUpcoming(e, now) {
        assert !IsFuture(e, now);
      } else {
        assert IsFuture(e, now);
      }
    }
  }

  /** Each bucket holds exactly the events of its class, and buckets keep list order. */
  lemma BucketsByClass(events: seq<Event>, now: int)
    ensures forall e :: e in Filter(events, PastAt(now)) <==> e in events && e.date < now
    ensures forall e :: e in Filter(events, UpcomingAt(now)) <==> e in events && 0 <= e.date - now <= Week
    ensures forall e :: e in Filter(events, FutureAt(now)) <==> e in events && e.date - now > Week
    ensures IsSubsequence(Filter(events, PastAt(now)), events)
    ensures IsSubsequence(Filter(events, UpcomingAt(now)), events)
    ensures IsSubsequence(Filter(events, FutureAt(now)), events)
  {
    FilterIsSubsequence(events, PastAt(now));
    FilterIsSubsequence(events, UpcomingAt(now));
    FilterIsSubsequence(events, FutureAt(now));
  }

  /** An event exactly a week ahead is upcoming; one millisecond later it is in the future bucket. */
  lemma WeekBoundary(e: Event, now: int)
    ensures e.date == now + Week ==> IsUpcoming(e, now)
    ensures e.date == now + Week + 1 ==> IsFuture(e, now)
    ensures e.date == now ==> IsUpcoming(e, now)
  {
  }
}
