/** The completion and retry trackers (app/events/idempotency.py). */
module EventTrackers {
  import opened Basics
  import opened Uuids
  import opened EventConsumers

  /** Completed ids and retry counts in two fields. */
  class InMemoryEventTracker {
    var completed: set<EventId>
    var retryCounts: map<EventId, nat>

    constructor ()
      ensures Value() == NEW_TRACKER
    {
      completed, retryCounts := {}, map[];
    }

    ghost function Value(): Tracker
      reads this
    {
      Tracker(completed, retryCounts)
    }

    method IsCompleted(e: EventId) returns (done: bool)
      ensures done <==> e in Value().completed
    {
      done := e in completed;
    }

    method MarkCompleted(e: EventId)
      modifies this
      ensures Value() == old(Value()).Completed(e).Cleared(e)
    {
      completed := completed + {e};
      retryCounts := retryCounts - {e};
    }

    method IncrementRetry(e: EventId) returns (count: nat)
      modifies this
      ensures Value() == old(Value()).Counted(e) && count == Value().Count(e)
    {
      count := (if e in retryCounts then retryCounts[e] else 0) + 1;
      retryCounts := retryCounts[e := count];
    }
  }

  // ---------- Redis ----------

  function CompletedKey(namespace: string, e: EventId): string {
    namespace + ":completed:" + ToText(e)
  }

  function RetryKey(namespace: string, e: EventId): string {
    namespace + ":retry:" + ToText(e)
  }

  lemma {:induction false} CompletedKeyInjective(namespace: string, e: EventId, e': EventId)
    requires CompletedKey(namespace, e) == CompletedKey(namespace, e')
    ensures e == e'
  {
    var k := CompletedKey(namespace, e);
    assert k[|k| - 36..] == ToText(e) == ToText(e');
    ToTextInjective(e, e');
  }

  lemma {:induction false} RetryKeyInjective(namespace: string, e: EventId, e': EventId)
    requires RetryKey(namespace, e) == RetryKey(namespace, e')
    ensures e == e'
  {
    var k := RetryKey(namespace, e);
    assert k[|k| - 36..] == ToText(e) == ToText(e');
    ToTextInjective(e, e');
  }

  /** The Redis keys of one namespace stand for a tracker's value. */
  ghost predicate Represents(namespace: string, keys: map<string, nat>, t: Tracker) {
    && (forall e: EventId :: CompletedKey(namespace, e) in keys <==> e in t.completed)
    && (forall e: EventId :: RetryKey(namespace, e) in keys <==> e in t.retries)
    && (forall e: EventId :: e in t.retries ==> keys[RetryKey(namespace, e)] == t.retries[e])
  }

  lemma {:induction false} RepresentsCompleted(namespace: string, keys: map<string, nat>, t: Tracker, e: EventId)
    requires Represents(namespace, keys, t)
    ensures Represents(namespace, keys[CompletedKey(namespace, e) := 1], t.Completed(e))
  {
    forall x: EventId
      ensures CompletedKey(namespace, x) == CompletedKey(namespace, e) ==> x == e
      ensures RetryKey(namespace, x) != CompletedKey(namespace, e)
    {
      if CompletedKey(namespace, x) == CompletedKey(namespace, e) {
        CompletedKeyInjective(namespace, x, e);
      }
    }
  }

  lemma {:induction false} RepresentsCleared(namespace: string, keys: map<string, nat>, t: Tracker, e: EventId)
    requires Represents(namespace, keys, t)
    ensures Represents(namespace, keys - {RetryKey(namespace, e)}, t.Cleared(e))
  {
    forall x: EventId
      ensures RetryKey(namespace, x) == RetryKey(namespace, e) ==> x == e
      ensures CompletedKey(namespace, x) != RetryKey(namespace, e)
    {
      if RetryKey(namespace, x) == RetryKey(namespace, e) {
        RetryKeyInjective(namespace, x, e);
      }
    }
  }

  lemma {:induction false} RepresentsCounted(namespace: string, keys: map<string, nat>, t: Tracker, e: EventId)
    requires Represents(namespace, keys, t)
    ensures Represents(namespace, keys[RetryKey(namespace, e) := t.Count(e) + 1], t.Counted(e))
  {
    forall x: EventId
      ensures RetryKey(namespace, x) == RetryKey(namespace, e) ==> x == e
      ensures CompletedKey(namespace, x) != RetryKey(namespace, e)
    {
      if RetryKey(namespace, x) == RetryKey(namespace, e) {
        RetryKeyInjective(namespace, x, e);
      }
    }
  }

  /** A key's value, and when it expires. */
  datatype Entry = Entry(value: nat, expiresAt: Option<int>)

  predicate Expired(entry: Entry, now: int) {
    entry.expiresAt.Some? && entry.expiresAt.value <= now
  }

  /** The keys that have not expired. */
  function Live(keys: map<string, Entry>, now: int): map<string, nat> {
    map k | k in keys && !Expired(keys[k], now) :: keys[k].value
  }

  /** A key lives until the time at which it expires, which is no longer part of its life. */
  lemma {:induction false} LivesUntil(keys: map<string, Entry>, now: int, key: string)
    ensures key in Live(keys, now) <==>
      key in keys && (keys[key].expiresAt.None? || now < keys[key].expiresAt.value)
    ensures key in Live(keys, now) ==> Live(keys, now)[key] == keys[key].value
  {
  }

  lemma {:induction false} LivePut(keys: map<string, Entry>, now: int, key: string, entry: Entry)
    requires !Expired(entry, now)
    ensures Live(keys[key := entry], now) == Live(keys, now)[key := entry.value]
  {
  }

  lemma {:induction false} LiveDelete(keys: map<string, Entry>, now: int, key: string)
    ensures Live(keys - {key}, now) == Live(keys, now) - {key}
  {
  }

  /** What is left of a tracker's value when only the keys in `live` are left of its keys. */
  ghost function Remembered(namespace: string, live: map<string, nat>, t: Tracker): Tracker {
    Tracker(set e | e in t.completed && CompletedKey(namespace, e) in live,
            map e | e in t.retries && RetryKey(namespace, e) in live :: t.retries[e])
  }

  lemma {:induction false} RepresentsRemembered(
    namespace: string, before: map<string, nat>, live: map<string, nat>, t: Tracker)
    requires Represents(namespace, before, t)
    requires forall k :: k in live ==> k in before && live[k] == before[k]
    ensures Represents(namespace, live, Remembered(namespace, live, t))
  {
  }

  /** Completed ids and retry counts as keys of one flat store, which drops keys as time passes. */
  class RedisEventTracker {
    const namespace: string
    const ttlSeconds: int
    var keys: map<string, Entry>
    var clock: int
    ghost var value: Tracker

    ghost predicate Valid()
      reads this
    {
      ttlSeconds > 0 && Represents(namespace, Live(keys, clock), value)
    }

    constructor (namespace: string, ttlSeconds: int, now: int)
      requires ttlSeconds > 0
      ensures Valid() && value == NEW_TRACKER && clock == now
      ensures this.namespace == namespace && this.ttlSeconds == ttlSeconds
    {
      this.namespace, this.ttlSeconds := namespace, ttlSeconds;
      keys, clock := map[], now;
      value := NEW_TRACKER;
    }

    /** Time passes: exactly the expired completions and counts are forgotten. */
    method Wait(now: int)
      requires Valid() && clock <= now
      modifies this`clock, this`value
      ensures Valid() && clock == now
      ensures value == Remembered(namespace, Live(keys, now), old(value))
    {
      RepresentsRemembered(namespace, Live(keys, clock), Live(keys, now), value);
      clock := now;
      value := Remembered(namespace, Live(keys, now), value);
    }

    method IsCompleted(e: EventId) returns (done: bool)
      requires Valid()
      ensures done <==> e in value.completed
    {
      var key := CompletedKey(namespace, e);
      done := key in keys && !Expired(keys[key], clock);
    }

    /** The completion lives for `ttl_seconds` from now on. */
    method MarkCompleted(e: EventId)
      requires Valid()
      modifies this`keys, this`value
      ensures Valid() && value == old(value).Completed(e).Cleared(e)
      ensures keys == old(keys)[CompletedKey(namespace, e) := Entry(1, Some(clock + ttlSeconds))]
                      - {RetryKey(namespace, e)}
    {
      var entry := Entry(1, Some(clock + ttlSeconds));
      RepresentsCompleted(namespace, Live(keys, clock), value, e);
      LivePut(keys, clock, CompletedKey(namespace, e), entry);
      keys := keys[CompletedKey(namespace, e) := entry];
      value := value.Completed(e);
      RepresentsCleared(namespace, Live(keys, clock), value, e);
      LiveDelete(keys, clock, RetryKey(namespace, e));
      keys := keys - {RetryKey(namespace, e)};
      value := value.Cleared(e);
    }

    /** The count lives for `ttl_seconds` from its first increment; later ones do not prolong it. */
    method IncrementRetry(e: EventId) returns (count: nat)
      requires Valid()
      modifies this`keys, this`value
      ensures Valid() && value == old(value).Counted(e) && count == value.Count(e)
      ensures RetryKey(namespace, e) in keys
      ensures keys == old(keys)[RetryKey(namespace, e) := keys[RetryKey(namespace, e)]]
      ensures keys[RetryKey(namespace, e)] == Entry(
        count, if count == 1 || RetryKey(namespace, e) !in old(keys) then Some(clock + ttlSeconds)
               else old(keys)[RetryKey(namespace, e)].expiresAt)
    {
      var key := RetryKey(namespace, e);
      var entry := if key in keys && !Expired(keys[key], clock) then keys[key] else Entry(0, None);
      RepresentsCounted(namespace, Live(keys, clock), value, e);
      count := entry.value + 1;
      entry := entry.(value := count);
      if count == 1 {
        entry := entry.(expiresAt := Some(clock + ttlSeconds));
      }
      LivePut(keys, clock, key, entry);
      keys := keys[key := entry];
      value := value.Counted(e);
    }
  }
}
