/** Pruning analytics events in batches, and its agreement with pruning in one go. */
module Pruning {
  import opened Wrappers

  datatype Event = Event(id: nat, occurredAt: int)

  datatype Error = BatchSize | MaxEvents | RetentionDays
  datatype Counts = Counts(deletedByAge: nat, deletedByCap: nat, remaining: nat)

  predicate Older(a: Event, b: Event) {
    a.occurredAt < b.occurredAt || (a.occurredAt == b.occurredAt && a.id < b.id)
  }

  /** Ids are unique. */
  ghost predicate Keyed(events: set<Event>) {
    forall a, b :: a in events && b in events && a.id == b.id ==> a == b
  }

  function Before(events: set<Event>, cutoff: int): set<Event> {
    set e | e in events && e.occurredAt < cutoff
  }

  /** `oldest` are the oldest of the events. */
  ghost predicate OldestOf(oldest: set<Event>, events: set<Event>) {
    oldest <= events && forall a, b :: a in oldest && b in events - oldest ==> Older(a, b)
  }

  /** `kept` are the newest of the events. */
  ghost predicate NewestOf(kept: set<Event>, events: set<Event>) {
    OldestOf(events - kept, events) && kept <= events
  }

  lemma {:induction false} OlderThanKept(kept: set<Event>, events: set<Event>, gone: Event, k: Event)
    requires NewestOf(kept, events) && gone in events && gone !in kept && k in kept
    ensures Older(gone, k)
  {
    assert gone in events - kept && k in events - (events - kept);
  }

  /** The newest events of a given number are determined. */
  lemma {:induction false} NewestUnique(a: set<Event>, b: set<Event>, events: set<Event>)
    requires NewestOf(a, events) && NewestOf(b, events) && |a| == |b|
    ensures a == b
  {
    if exists x :: x in a && x !in b {
      var x :| x in a && x !in b;
      forall y | y in b
        ensures y in a
      {
        if y !in a {
          OlderThanKept(a, events, y, x);
          OlderThanKept(b, events, x, y);
        }
      }
      Smaller(b, a);
    } else if exists y :: y in b && y !in a {
      Smaller(a, b);
    }
  }

  lemma {:induction false} Smaller(a: set<Event>, b: set<Event>)
    requires a <= b
    ensures |b| == |a| + |b - a|
  {
    assert b == a + (b - a);
  }

  lemma {:induction false} NotBefore(events: set<Event>, cutoff: int)
    ensures events - Before(events, cutoff) == set e | e in events && e.occurredAt >= cutoff
  {}

  lemma {:induction false} NewestMeans(kept: set<Event>, events: set<Event>)
    requires NewestOf(kept, events)
    ensures kept <= events
    ensures forall gone, k :: gone in events - kept && k in kept ==>
              gone.occurredAt < k.occurredAt || (gone.occurredAt == k.occurredAt && gone.id < k.id)
  {
    forall gone, k | gone in events - kept && k in kept
      ensures Older(gone, k)
    {
      OlderThanKept(kept, events, gone, k);
    }
  }

  lemma {:induction false} AllNewest(events: set<Event>)
    ensures NewestOf(events, events)
  {
    assert events - events == {};
  }

  /** Removing some of the oldest leaves the newest. */
  lemma {:induction false} RemoveOldest(events: set<Event>, left: set<Event>, oldest: set<Event>)
    requires NewestOf(left, events) && OldestOf(oldest, left)
    ensures NewestOf(left - oldest, events)
  {
    var gone := events - (left - oldest);
    forall a, b | a in gone && b in events - gone
      ensures Older(a, b)
    {
      assert b in left - oldest;
      if a in oldest {
        assert a in left;
      } else {
        assert a in events - left && b in events - (events - left);
      }
    }
  }

  /** The order-by-and-limit query. */
  method Oldest(events: set<Event>, limit: nat) returns (oldest: set<Event>)
    requires Keyed(events)
    ensures OldestOf(oldest, events)
    ensures |oldest| == if limit < |events| then limit else |events|
  {
    oldest := {};
    while |oldest| < limit && oldest != events
      invariant OldestOf(oldest, events) && |oldest| <= limit
      decreases |events - oldest|
    {
      var e := Minimum(events - oldest);
      oldest := oldest + {e};
    }
    Smaller(oldest, events);
    if oldest != events {
      assert exists x :: x in events - oldest;
      assert |events - oldest| > 0;
    }
  }

  method Minimum(events: set<Event>) returns (m: Event)
    requires events != {} && Keyed(events)
    ensures m in events && forall e :: e in events && e != m ==> Older(m, e)
  {
    m :| m in events;
    var todo := events - {m};
    while todo != {}
      invariant m in events && m !in todo && todo <= events
      invariant forall e :: e in events && e != m && e !in todo ==> Older(m, e)
      decreases todo
    {
      var e :| e in todo;
      todo := todo - {e};
      if Older(e, m) {
        m := e;
      }
    }
  }

  class AnalyticsEvents {
    var events: set<Event>

    /** Delete events past their retention, then the oldest beyond the cap, `batchSize` at a time.  What is
        left is what deleting in one go would leave: the newest `maxEvents` of those not too old. */
    method PruneEvents(maxEvents: Option<int>, retentionDays: Option<int>, now: int, batchSize: int)
      returns (r: Result<Counts, Error>)
      requires Keyed(events)
      modifies this
      ensures r.Failure? <==> batchSize <= 0 || (maxEvents.Some? && maxEvents.value < 0)
                              || (retentionDays.Some? && retentionDays.value < 0)
      ensures r.Failure? ==> events == old(events)
      ensures r.Success? ==>
                var young := set e | e in old(events)
                                     && (retentionDays.Some? ==> e.occurredAt >= now - retentionDays.value);
                && events <= young
                && (forall gone, kept :: gone in young - events && kept in events ==>
                      gone.occurredAt < kept.occurredAt || (gone.occurredAt == kept.occurredAt && gone.id < kept.id))
                && |events| == (if maxEvents.Some? && maxEvents.value < |young| then maxEvents.value else |young|)
                && r.value.remaining == |events|
                && r.value.deletedByCap + |events| == |young| && r.value.deletedByAge + |young| == |old(events)|
                && r.value.deletedByAge + r.value.deletedByCap + r.value.remaining == |old(events)|
    {
      hide Before, NewestOf, Older;
      if batchSize <= 0 {
        return Failure(BatchSize);
      }
      if maxEvents.Some? && maxEvents.value < 0 {
        return Failure(MaxEvents);
      }
      if retentionDays.Some? && retentionDays.value < 0 {
        return Failure(RetentionDays);
      }
      var deletedByAge, deletedByCap := 0, 0;
      if retentionDays.Some? {
        NotBefore(events, now - retentionDays.value);
        deletedByAge := PruneByAge(now - retentionDays.value, batchSize);
      }
      ghost var young := events;
      assert young == set e | e in old(events) && (retentionDays.Some? ==> e.occurredAt >= now - retentionDays.value);
      if maxEvents.Some? {
        deletedByCap := PruneByCap(maxEvents.value, batchSize);
      } else {
        AllNewest(events);
      }
      NewestMeans(events, young);
      r := Success(Counts(deletedByAge, deletedByCap, |events|));
    }

    method PruneByAge(cutoff: int, batchSize: nat) returns (deleted: nat)
      requires Keyed(events) && batchSize > 0
      modifies this
      ensures events == old(events) - Before(old(events), cutoff)
      ensures deleted == |old(events)| - |events|
    {
      deleted := 0;
      while true
        invariant events <= old(events) && Keyed(events)
        invariant events - Before(events, cutoff) == old(events) - Before(old(events), cutoff)
        invariant deleted == |old(events)| - |events|
        decreases |events|
      {
        var ids := Oldest(Before(events, cutoff), batchSize);
        if ids == {} {
          assert Before(events, cutoff) == {};
          break;
        }
        Smaller(ids, events);
        assert |ids| > 0;
        events, deleted := events - ids, deleted + |ids|;
      }
    }

    method PruneByCap(maxEvents: nat, batchSize: nat) returns (deleted: nat)
      requires Keyed(events) && batchSize > 0
      modifies this
      ensures NewestOf(events, old(events))
      ensures |events| == if maxEvents < |old(events)| then maxEvents else |old(events)|
      ensures deleted == |old(events)| - |events|
    {
      deleted := 0;
      var total := |events|;
      while total > maxEvents
        invariant total == |events| && Keyed(events) && NewestOf(events, old(events))
        invariant |events| >= if maxEvents < |old(events)| then maxEvents else |old(events)|
        invariant deleted == |old(events)| - |events|
        decreases total
      {
        var deleteCount := if batchSize < total - maxEvents then batchSize else total - maxEvents;
        var ids := Oldest(events, deleteCount);
        if ids == {} {
          break;
        }
        RemoveOldest(old(events), events, ids);
        Smaller(ids, events);
        events, deleted := events - ids, deleted + |ids|;
        total := |events|;
      }
    }
  }
}
