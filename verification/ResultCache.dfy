/** The result cache (app/core/cache.py), one request at a time: LRU order, capacity, time to live. */
module ResultCache {
  import opened Basics

  type Key = string

  /** One entry of the ordered dictionary; a computed value may be Python's `None`. */
  datatype Item<V> = Item(key: Key, storedAt: real, value: Option<V>)

  datatype Settings = Settings(maxSize: nat, ttl: Option<real>)

  predicate Expired<V>(cfg: Settings, item: Item<V>, now: real) {
    cfg.ttl.Some? && now - item.storedAt > cfg.ttl.value
  }

  // ---------- The ordered dictionary ----------

  function Keys<V>(store: seq<Item<V>>): (r: seq<Key>)
    ensures |r| == |store|
    ensures forall i :: 0 <= i < |store| ==> r[i] == store[i].key
  {
    if store == [] then [] else [store[0].key] + Keys(store[1..])
  }

  /** The position of a key, or the length of the store. */
  function Find<V>(store: seq<Item<V>>, key: Key): (i: nat)
    ensures i <= |store|
    ensures i < |store| ==> store[i].key == key
    ensures forall j :: 0 <= j < i ==> store[j].key != key
  {
    if store == [] || store[0].key == key then 0 else 1 + Find(store[1..], key)
  }

  function Remove<V>(store: seq<Item<V>>, key: Key): seq<Item<V>> {
    var i := Find(store, key);
    if i == |store| then store else store[..i] + store[i + 1..]
  }

  /** `_lookup`: drop an expired entry, move a live one to the end. */
  function Lookup<V>(cfg: Settings, store: seq<Item<V>>, key: Key, now: real): (seq<Item<V>>, Option<V>) {
    var i := Find(store, key);
    if i == |store| then (store, None)
    else if Expired(cfg, store[i], now) then (Remove(store, key), None)
    else (Remove(store, key) + [store[i]], store[i].value)
  }

  /** `_insert`: put at the end, then drop from the front down to the capacity. */
  function Insert<V>(cfg: Settings, store: seq<Item<V>>, key: Key, value: Option<V>, now: real): seq<Item<V>> {
    TakeLast(Remove(store, key) + [Item(key, now, value)], cfg.maxSize)
  }

  /** The keys an insertion pushes out, whose locks go with them. */
  function Evicted<V>(cfg: Settings, store: seq<Item<V>>, key: Key, value: Option<V>, now: real): set<Key> {
    var full := Remove(store, key) + [Item(key, now, value)];
    set i | 0 <= i < |full| - cfg.maxSize :: full[i].key
  }

  /** A computation raises, or gives a value, possibly `None`. */
  datatype Computation<V> = Raises | Gives(value: Option<V>)

  /** One request, with the clock read at each lookup and at the insertion. */
  datatype Request<V> = Request(key: Key, first: real, second: real, third: real, computation: Computation<V>)

  datatype Answer<V> = Hit(stored: V) | Computed(value: Option<V>) | Failed

  function GetOrCompute<V>(cfg: Settings, store: seq<Item<V>>, r: Request<V>): (seq<Item<V>>, Answer<V>) {
    var (s1, hit) := Lookup(cfg, store, r.key, r.first);
    if hit.Some? then (s1, Hit(hit.value)) else ComputeLocked(cfg, s1, r)
  }

  /** What a request does once it holds the key's lock. */
  function ComputeLocked<V>(cfg: Settings, store: seq<Item<V>>, r: Request<V>): (seq<Item<V>>, Answer<V>) {
    var (s, hit) := Lookup(cfg, store, r.key, r.second);
    if hit.Some? then (s, Hit(hit.value))
    else if r.computation.Raises? then (s, Failed)
    else (Insert(cfg, s, r.key, r.computation.value, r.third), Computed(r.computation.value))
  }

  class AsyncResultCache<V> {
    const cfg: Settings
    var store: seq<Item<V>>
    var keyLocks: set<Key>

    constructor (cfg: Settings)
      ensures this.cfg == cfg && store == [] && keyLocks == {}
    {
      this.cfg := cfg;
      store, keyLocks := [], {};
    }

    method LookupKey(key: Key, now: real) returns (value: Option<V>)
      modifies this`store
      ensures (store, value) == Lookup(cfg, old(store), key, now)
    {
      var i := 0;
      while i < |store| && store[i].key != key
        invariant i <= |store|
        invariant forall j :: 0 <= j < i ==> store[j].key != key
      {
        i := i + 1;
      }
      assert i == Find(store, key);
      if i == |store| {
        return None;
      }
      var entry := store[i];
      store := store[..i] + store[i + 1..];
      if Expired(cfg, entry, now) {
        return None;
      }
      store := store + [entry];
      return entry.value;
    }

    method InsertKey(key: Key, value: Option<V>, now: real)
      modifies this
      ensures store == Insert(cfg, old(store), key, value, now)
      ensures keyLocks == old(keyLocks) - Evicted(cfg, old(store), key, value, now)
    {
      store := Remove(store, key) + [Item(key, now, value)];
      ghost var full, dropped := store, 0;
      while |store| > cfg.maxSize
        invariant 0 <= dropped <= |full| && store == full[dropped..]
        invariant dropped > 0 ==> |store| >= cfg.maxSize
        invariant keyLocks == old(keyLocks) - (set i | 0 <= i < dropped :: full[i].key)
      {
        var evicted := store[0].key;
        assert full[dropped].key == evicted;
        store := store[1..];
        keyLocks := keyLocks - {evicted};
        dropped := dropped + 1;
      }
    }

    /** A request that nothing interleaves with; the key's lock is created and found free. */
    method Get(r: Request<V>) returns (answer: Answer<V>)
      modifies this
      ensures (store, answer) == GetOrCompute(cfg, old(store), r)
    {
      var hit := LookupKey(r.key, r.first);
      if hit.Some? {
        return Hit(hit.value);
      }
      keyLocks := keyLocks + {r.key};
      hit := LookupKey(r.key, r.second);
      if hit.Some? {
        return Hit(hit.value);
      }
      if r.computation.Raises? {
        return Failed;
      }
      InsertKey(r.key, r.computation.value, r.third);
      return Computed(r.computation.value);
    }
  }

  // ---------- Recency ----------

  function RemoveKey(keys: seq<Key>, key: Key): seq<Key> {
    if keys == [] then []
    else if keys[0] == key then RemoveKey(keys[1..], key)
    else [keys[0]] + RemoveKey(keys[1..], key)
  }

  /** The distinct keys of a list of requests, least recently requested first. */
  function ByRecency(requested: seq<Key>): seq<Key> {
    if requested == [] then []
    else
      var last := requested[|requested| - 1];
      RemoveKey(ByRecency(requested[..|requested| - 1]), last) + [last]
  }

  lemma {:induction false} RemoveKeyMembers(keys: seq<Key>, key: Key)
    ensures forall k :: k in RemoveKey(keys, key) <==> k in keys && k != key
  {
    if keys != [] {
      RemoveKeyMembers(keys[1..], key);
    }
  }

  lemma {:induction false} RemoveKeyDistinct(keys: seq<Key>, key: Key)
    requires Distinct(keys)
    ensures Distinct(RemoveKey(keys, key))
  {
    if keys != [] {
      RemoveKeyDistinct(keys[1..], key);
      RemoveKeyMembers(keys[1..], key);
      var r := RemoveKey(keys[1..], key);
      forall i | 0 <= i < |r| ensures r[i] != keys[0] {
        assert r[i] in r;
      }
    }
  }

  lemma {:induction false} RemoveKeyConcat(a: seq<Key>, b: seq<Key>, key: Key)
    ensures RemoveKey(a + b, key) == RemoveKey(a, key) + RemoveKey(b, key)
  {
    if a == [] {
      assert a + b == b;
    } else {
      assert (a + b)[1..] == a[1..] + b;
      RemoveKeyConcat(a[1..], b, key);
    }
  }

  lemma {:induction false} RemoveKeyAbsent(keys: seq<Key>, key: Key)
    requires key !in keys
    ensures RemoveKey(keys, key) == keys
  {
    if keys != [] {
      RemoveKeyAbsent(keys[1..], key);
    }
  }

  /** When a key was requested last. */
  function LastRequest(requested: seq<Key>, key: Key): int {
    if requested == [] then -1
    else if requested[|requested| - 1] == key then |requested| - 1
    else LastRequest(requested[..|requested| - 1], key)
  }

  lemma {:induction false} LastRequestBound(requested: seq<Key>, key: Key)
    ensures LastRequest(requested, key) < |requested|
  {
    if requested != [] {
      LastRequestBound(requested[..|requested| - 1], key);
    }
  }

  ghost predicate OrderedByLastRequest(requested: seq<Key>, keys: seq<Key>) {
    forall i, j :: 0 <= i < j < |keys| ==> LastRequest(requested, keys[i]) < LastRequest(requested, keys[j])
  }

  /** `ByRecency` lists exactly the requested keys, each once, in the order of their last requests. */
  lemma {:induction false} ByRecencySpec(requested: seq<Key>)
    ensures forall k :: k in ByRecency(requested) <==> k in requested
    ensures Distinct(ByRecency(requested))
    ensures OrderedByLastRequest(requested, ByRecency(requested))
  {
    if requested != [] {
      var init, last := requested[..|requested| - 1], requested[|requested| - 1];
      var earlier := ByRecency(init);
      ByRecencySpec(init);
      RemoveKeyMembers(earlier, last);
      RemoveKeyDistinct(earlier, last);
      assert requested == init + [last];
      RemovalKeepsOrder(earlier, last, init);
      var kept := RemoveKey(earlier, last);
      forall i | 0 <= i < |kept|
        ensures kept[i] != last && LastRequest(requested, kept[i]) == LastRequest(init, kept[i]) < |init|
      {
        assert kept[i] in kept;
        LastRequestBound(init, kept[i]);
      }
    }
  }

  lemma {:induction false} RemovalKeepsOrder(keys: seq<Key>, key: Key, requested: seq<Key>)
    requires OrderedByLastRequest(requested, keys)
    ensures OrderedByLastRequest(requested, RemoveKey(keys, key))
  {
    if keys != [] {
      RemovalKeepsOrder(keys[1..], key, requested);
      RemoveKeyMembers(keys[1..], key);
      var r := RemoveKey(keys[1..], key);
      forall i | 0 <= i < |r| ensures LastRequest(requested, keys[0]) < LastRequest(requested, r[i]) {
        assert r[i] in r;
        var j :| 0 <= j < |keys[1..]| && keys[1..][j] == r[i];
        assert keys[j + 1] == r[i];
      }
    }
  }

  // ---------- The store's keys under one request ----------

  lemma {:induction false} KeysConcat<V>(a: seq<Item<V>>, b: seq<Item<V>>)
    ensures Keys(a + b) == Keys(a) + Keys(b)
  {
    if a == [] {
      assert a + b == b;
    } else {
      assert (a + b)[1..] == a[1..] + b;
      KeysConcat(a[1..], b);
    }
  }

  lemma {:induction false} RemoveKeyAt(keys: seq<Key>, i: nat)
    requires Distinct(keys) && i < |keys|
    ensures RemoveKey(keys, keys[i]) == keys[..i] + keys[i + 1..]
  {
    if i == 0 {
      RemoveKeyAbsent(keys[1..], keys[0]);
    } else {
      RemoveKeyAt(keys[1..], i - 1);
      assert keys[..i] == [keys[0]] + keys[1..][..i - 1];
    }
  }

  lemma {:induction false} KeysOfRemove<V>(store: seq<Item<V>>, key: Key)
    requires Distinct(Keys(store))
    ensures Keys(Remove(store, key)) == RemoveKey(Keys(store), key)
    ensures Find(store, key) < |store| <==> key in Keys(store)
  {
    var i := Find(store, key);
    var keys := Keys(store);
    if i < |store| {
      KeysConcat(store[..i], store[i + 1..]);
      assert Keys(store[..i]) == keys[..i] && Keys(store[i + 1..]) == keys[i + 1..];
      assert keys[i] == key;
      RemoveKeyAt(keys, i);
    } else {
      RemoveKeyAbsent(keys, key);
    }
  }

  lemma {:induction false} KeysOfTail<V>(store: seq<Item<V>>, n: nat)
    ensures Keys(TakeLast(store, n)) == TakeLast(Keys(store), n)
  {
    if |store| > n {
      var cut := |store| - n;
      KeysConcat(store[..cut], store[cut..]);
      assert store == store[..cut] + store[cut..];
    }
  }

  /** The keys after requesting `key` with capacity `n`. */
  function Touched(keys: seq<Key>, key: Key, n: nat): seq<Key> {
    TakeLast(RemoveKey(keys, key) + [key], n)
  }

  lemma {:induction false} RemoveKeyLength(keys: seq<Key>, key: Key)
    requires Distinct(keys)
    ensures |RemoveKey(keys, key)| == if key in keys then |keys| - 1 else |keys|
  {
    if keys != [] {
      if keys[0] == key {
        assert key !in keys[1..];
        RemoveKeyAbsent(keys[1..], key);
      } else {
        RemoveKeyLength(keys[1..], key);
      }
    }
  }

  lemma {:induction false} TouchedSpec(keys: seq<Key>, key: Key, n: nat)
    requires Distinct(keys) && |keys| <= n
    ensures Distinct(Touched(keys, key, n)) && |Touched(keys, key, n)| <= n
    ensures key in keys ==> Touched(keys, key, n) == RemoveKey(keys, key) + [key]
    ensures key in keys ==> RemoveKey(Touched(keys, key, n), key) == RemoveKey(keys, key)
    ensures Distinct(RemoveKey(keys, key)) && |RemoveKey(keys, key)| <= n && key !in RemoveKey(keys, key)
    ensures RemoveKey(RemoveKey(keys, key), key) == RemoveKey(keys, key)
  {
    var removed := RemoveKey(keys, key);
    RemoveKeyMembers(keys, key);
    RemoveKeyDistinct(keys, key);
    RemoveKeyLength(keys, key);
    RemoveKeyAbsent(removed, key);
    RemoveKeyConcat(removed, [key], key);
    assert Distinct(removed + [key]);
  }

  /** A lookup leaves the keys alone, drops the key, or moves it to the end. */
  lemma {:induction false} LookupKeys<V>(cfg: Settings, store: seq<Item<V>>, key: Key, now: real)
    requires Distinct(Keys(store))
    ensures
      var (s, hit) := Lookup(cfg, store, key, now);
      var keys := Keys(store);
      || (key !in keys && s == store && hit == None)
      || (key in keys && Keys(s) == RemoveKey(keys, key) && hit == None)
      || (key in keys && Keys(s) == RemoveKey(keys, key) + [key])
  {
    KeysOfRemove(store, key);
    var i := Find(store, key);
    if i < |store| {
      KeysConcat(Remove(store, key), [store[i]]);
    }
  }

  lemma {:induction false} InsertKeys<V>(cfg: Settings, store: seq<Item<V>>, key: Key, value: Option<V>, now: real)
    requires Distinct(Keys(store))
    ensures Keys(Insert(cfg, store, key, value, now)) == Touched(Keys(store), key, cfg.maxSize)
  {
    KeysOfRemove(store, key);
    KeysOfPut(Remove(store, key), Item(key, now, value), cfg.maxSize);
  }

  lemma {:induction false} KeysOfPut<V>(store: seq<Item<V>>, item: Item<V>, n: nat)
    ensures Keys(TakeLast(store + [item], n)) == TakeLast(Keys(store) + [item.key], n)
  {
    KeysConcat(store, [item]);
    assert Keys([item]) == [item.key];
    var put, keys := store + [item], Keys(store) + [item.key];
    assert Keys(put) == keys;
    KeysOfTail(put, n);
  }

  lemma {:induction false} SecondLookupKeys<V>(cfg: Settings, store: seq<Item<V>>, keys: seq<Key>, key: Key, now: real)
    requires Distinct(keys) && |keys| <= cfg.maxSize
    requires Keys(store) == keys || Keys(store) == RemoveKey(keys, key)
          || (key in keys && Keys(store) == RemoveKey(keys, key) + [key])
    ensures var (s, hit) := Lookup(cfg, store, key, now);
      && (hit.Some? ==> key in keys && Keys(s) == Touched(keys, key, cfg.maxSize))
      && Distinct(Keys(s)) && Touched(Keys(s), key, cfg.maxSize) == Touched(keys, key, cfg.maxSize)
  {
    TouchedSpec(keys, key, cfg.maxSize);
    LookupKeys(cfg, store, key, now);
    TouchedSpec(Keys(store), key, cfg.maxSize);
  }

  /** A request that gets an answer moves its key to the end, within the capacity. */
  lemma {:induction false} AnswerTouchesKey<V>(cfg: Settings, store: seq<Item<V>>, r: Request<V>)
    requires Distinct(Keys(store)) && |store| <= cfg.maxSize && r.computation.Gives?
    ensures var s := GetOrCompute(cfg, store, r).0;
      Keys(s) == Touched(Keys(store), r.key, cfg.maxSize) && Distinct(Keys(s)) && |s| <= cfg.maxSize
  {
    var (s1, hit) := Lookup(cfg, store, r.key, r.first);
    TouchedSpec(Keys(store), r.key, cfg.maxSize);
    LookupKeys(cfg, store, r.key, r.first);
    if hit == None {
      var (s2, hit') := Lookup(cfg, s1, r.key, r.second);
      SecondLookupKeys(cfg, s1, Keys(store), r.key, r.second);
      if hit' == None {
        InsertKeys(cfg, s2, r.key, r.computation.value, r.third);
      }
    }
  }

  lemma {:induction false} RemovedIsAbsent<V>(store: seq<Item<V>>, key: Key)
    requires Distinct(Keys(store))
    ensures Find(Remove(store, key), key) == |Remove(store, key)|
  {
    KeysOfRemove(store, key);
    RemoveKeyMembers(Keys(store), key);
    RemoveKeyDistinct(Keys(store), key);
    KeysOfRemove(Remove(store, key), key);
  }

  lemma {:induction false} LookupAtEnd<V>(cfg: Settings, store: seq<Item<V>>, item: Item<V>, now: real)
    requires Find(store, item.key) == |store|
    ensures Lookup(cfg, store, item.key, now) == (store, None)
    ensures Remove(store + [item], item.key) == store
    ensures Lookup(cfg, store + [item], item.key, now)
      == if Expired(cfg, item, now) then (store, None) else (store + [item], item.value)
  {
    var all := store + [item];
    assert all[|store|] == item;
    assert forall j :: 0 <= j < |store| ==> all[j] == store[j];
    assert Find(all, item.key) == |store|;
  }

  lemma {:induction false} RaisesLocked<V>(cfg: Settings, store: seq<Item<V>>, item: Item<V>, r: Request<V>)
    requires Find(store, r.key) == |store| && item.key == r.key && r.computation.Raises?
    ensures ComputeLocked(cfg, store, r) == (store, Failed)
    ensures ComputeLocked(cfg, store + [item], r) ==
      if Expired(cfg, item, r.second) then (store, Failed)
      else (store + [item], if item.value.Some? then Hit(item.value.value) else Failed)
  {
    LookupAtEnd(cfg, store, item, r.second);
  }

  lemma {:induction false} LookupStored<V>(cfg: Settings, store: seq<Item<V>>, key: Key, now: real)
    requires Find(store, key) < |store|
    ensures
      var item := store[Find(store, key)];
      Lookup(cfg, store, key, now) ==
        if Expired(cfg, item, now) then (Remove(store, key), None) else (Remove(store, key) + [item], item.value)
  {
  }

  /** A request that raises for the stored `item`, which stands beside `others`. */
  lemma {:induction false} RaisesForStored<V>(
    cfg: Settings, store: seq<Item<V>>, others: seq<Item<V>>, item: Item<V>, r: Request<V>)
    requires Lookup(cfg, store, r.key, r.first) ==
      if Expired(cfg, item, r.first) then (others, None) else (others + [item], item.value)
    requires Find(others, r.key) == |others| && item.key == r.key && r.computation.Raises?
    ensures GetOrCompute(cfg, store, r) == Raised(cfg, others, item, r)
  {
    RaisesLocked(cfg, others, item, r);
  }

  /** What a raising request leaves and answers, given the entry it finds and the others. */
  function Raised<V>(cfg: Settings, others: seq<Item<V>>, item: Item<V>, r: Request<V>): (seq<Item<V>>, Answer<V>) {
    if Expired(cfg, item, r.first) then (others, Failed)
    else if item.value.Some? then (others + [item], Hit(item.value.value))
    else if Expired(cfg, item, r.second) then (others, Failed)
    else (others + [item], Failed)
  }

  lemma {:induction false} RaisesForAbsent<V>(cfg: Settings, store: seq<Item<V>>, r: Request<V>)
    requires Find(store, r.key) == |store| && r.computation.Raises?
    ensures GetOrCompute(cfg, store, r) == (store, Failed)
  {
  }

  /**
   * A request whose computation raises stores nothing and leaves every other entry in its place. Its
   * own entry, when there was one, was answered or held `None` and went to the end, or had expired
   * and is gone.
   */
  lemma {:induction false} FailureStoresNothing<V>(cfg: Settings, store: seq<Item<V>>, r: Request<V>)
    requires Distinct(Keys(store)) && r.computation.Raises?
    ensures
      var i := Find(store, r.key);
      GetOrCompute(cfg, store, r) ==
        if i == |store| then (store, Failed) else Raised(cfg, Remove(store, r.key), store[i], r)
  {
    var i := Find(store, r.key);
    if i == |store| {
      RaisesForAbsent(cfg, store, r);
    } else {
      RemovedIsAbsent(store, r.key);
      LookupStored(cfg, store, r.key, r.first);
      RaisesForStored(cfg, store, Remove(store, r.key), store[i], r);
    }
  }

  /** Without a time to live, a request that raises moves its key to the end, if it is stored. */
  lemma {:induction false} FailureTouchesStored<V>(cfg: Settings, store: seq<Item<V>>, r: Request<V>)
    requires cfg.ttl.None? && Distinct(Keys(store)) && |store| <= cfg.maxSize && r.computation.Raises?
    ensures
      var s := GetOrCompute(cfg, store, r).0;
      && Keys(s) == (if r.key in Keys(store) then Touched(Keys(store), r.key, cfg.maxSize) else Keys(store))
      && Distinct(Keys(s)) && |s| <= cfg.maxSize
  {
    KeysOfRemove(store, r.key);
    TouchedSpec(Keys(store), r.key, cfg.maxSize);
    var i := Find(store, r.key);
    if i < |store| {
      FailureStoresNothing(cfg, store, r);
      KeysConcat(Remove(store, r.key), [store[i]]);
      assert Keys([store[i]]) == [r.key];
    }
  }

  // ---------- Whole traces ----------

  function StoreAfter<V>(cfg: Settings, trace: seq<Request<V>>): seq<Item<V>> {
    if trace == [] then []
    else GetOrCompute(cfg, StoreAfter(cfg, trace[..|trace| - 1]), trace[|trace| - 1]).0
  }

  /** The keys of the requests that are answered, or find their key stored. */
  function TouchedKeys<V>(cfg: Settings, trace: seq<Request<V>>): seq<Key> {
    if trace == [] then []
    else
      var init, last := trace[..|trace| - 1], trace[|trace| - 1];
      if last.computation.Gives? || last.key in Keys(StoreAfter(cfg, init)) then TouchedKeys(cfg, init) + [last.key]
      else TouchedKeys(cfg, init)
  }

  ghost predicate NoneRaises<V>(trace: seq<Request<V>>) {
    forall i :: 0 <= i < |trace| ==> trace[i].computation.Gives?
  }

  lemma {:induction false} TouchedOfTail(keys: seq<Key>, key: Key, n: nat)
    requires Distinct(keys)
    ensures Touched(TakeLast(keys, n), key, n) == TakeLast(RemoveKey(keys, key) + [key], n)
  {
    if |keys| > n {
      var cut := |keys| - n;
      var a, b := keys[..cut], keys[cut..];
      assert keys == a + b;
      RemoveKeyConcat(a, b, key);
      RemoveKeyLength(b, key);
      var longer := RemoveKey(a, key) + (RemoveKey(b, key) + [key]);
      assert RemoveKey(keys, key) + [key] == longer;
      TakeLastOfConcat(RemoveKey(a, key), RemoveKey(b, key) + [key], n);
    }
  }

  lemma {:induction false} TakeLastOfConcat<T>(a: seq<T>, b: seq<T>, n: nat)
    requires |b| >= n
    ensures TakeLast(a + b, n) == TakeLast(b, n)
  {
  }

  lemma {:induction false} OneRequest<V>(cfg: Settings, store: seq<Item<V>>, r: Request<V>)
    requires Distinct(Keys(store)) && |store| <= cfg.maxSize && (cfg.ttl.None? || r.computation.Gives?)
    ensures
      var s := GetOrCompute(cfg, store, r).0;
      && Keys(s) == (if r.computation.Gives? || r.key in Keys(store) then Touched(Keys(store), r.key, cfg.maxSize)
                     else Keys(store))
      && Distinct(Keys(s)) && |s| <= cfg.maxSize
  {
    if r.computation.Gives? {
      AnswerTouchesKey(cfg, store, r);
    } else {
      FailureTouchesStored(cfg, store, r);
    }
  }

  /**
   * After any trace, if there is no time to live or no computation raises, the stored keys are the
   * `maxSize` most recently touched distinct keys, in the order of their last touches.
   */
  lemma {:induction false} StoreIsByRecency<V>(cfg: Settings, trace: seq<Request<V>>)
    requires cfg.ttl.None? || NoneRaises(trace)
    ensures Keys(StoreAfter(cfg, trace)) == TakeLast(ByRecency(TouchedKeys(cfg, trace)), cfg.maxSize)
    ensures Distinct(Keys(StoreAfter(cfg, trace))) && |StoreAfter(cfg, trace)| <= cfg.maxSize
  {
    if trace != [] {
      var init, last := trace[..|trace| - 1], trace[|trace| - 1];
      var touched := TouchedKeys(cfg, init);
      StoreIsByRecency(cfg, init);
      OneRequest(cfg, StoreAfter(cfg, init), last);
      ByRecencySpec(touched);
      TouchedOfTail(ByRecency(touched), last.key, cfg.maxSize);
      assert (touched + [last.key])[..|touched|] == touched;
    }
  }

  // ---------- Items ----------

  /** Every computation that succeeds gives a value other than `None`. */
  ghost predicate NoNone<V>(trace: seq<Request<V>>) {
    forall i :: 0 <= i < |trace| && trace[i].computation.Gives? ==> trace[i].computation.value.Some?
  }

  ghost predicate ValuesPresent<V>(store: seq<Item<V>>) {
    forall item :: item in store ==> item.value.Some?
  }

  /** A lookup keeps items; its hit is the value of one of them. */
  lemma {:induction false} LookupItems<V>(cfg: Settings, store: seq<Item<V>>, key: Key, now: real)
    ensures forall item :: item in Lookup(cfg, store, key, now).0 ==> item in store
    ensures var hit := Lookup(cfg, store, key, now).1;
      hit.Some? ==> exists item :: item in store && item.key == key && item.value == hit
  {
    var i := Find(store, key);
    if i < |store| {
      assert store[i] in store;
    }
  }

  lemma {:induction false} InsertItems<V>(cfg: Settings, store: seq<Item<V>>, key: Key, value: Option<V>, now: real)
    ensures forall item :: item in Insert(cfg, store, key, value, now) ==>
      item in store || item == Item(key, now, value)
  {
  }

  /** A request keeps items, and adds at most the one it computed. */
  lemma {:induction false} RequestItems<V>(cfg: Settings, store: seq<Item<V>>, r: Request<V>)
    ensures var (s, a) := GetOrCompute(cfg, store, r);
      && (forall item :: item in s ==>
            item in store || (r.computation.Gives? && item == Item(r.key, r.third, r.computation.value)))
      && (a.Hit? ==> exists item :: item in store && item.key == r.key && item.value == Some(a.stored))
      && (a.Computed? ==> r.computation == Gives(a.value))
  {
    LookupItems(cfg, store, r.key, r.first);
    var (s1, hit) := Lookup(cfg, store, r.key, r.first);
    LookupItems(cfg, s1, r.key, r.second);
    var (s2, hit') := Lookup(cfg, s1, r.key, r.second);
    if r.computation.Gives? {
      InsertItems(cfg, s2, r.key, r.computation.value, r.third);
    }
  }

  lemma {:induction false} StoreHasValues<V>(cfg: Settings, trace: seq<Request<V>>)
    requires NoNone(trace)
    ensures ValuesPresent(StoreAfter(cfg, trace))
  {
    if trace != [] {
      StoreHasValues(cfg, trace[..|trace| - 1]);
      RequestItems(cfg, StoreAfter(cfg, trace[..|trace| - 1]), trace[|trace| - 1]);
    }
  }

  /** Without a time to live and without `None` values, a request computes iff its key is not stored. */
  lemma {:induction false} ComputesIffAbsent<V>(cfg: Settings, store: seq<Item<V>>, r: Request<V>)
    requires cfg.ttl.None? && ValuesPresent(store)
    ensures GetOrCompute(cfg, store, r).1.Hit? <==> r.key in Keys(store)
  {
    var i := Find(store, r.key);
    if i == |store| {
      forall j | 0 <= j < |store| ensures Keys(store)[j] != r.key {
      }
    } else {
      assert Keys(store)[i] == r.key;
    }
  }

  lemma {:induction false} KeyIsItems<V>(store: seq<Item<V>>, key: Key)
    ensures key in Keys(store) <==> exists item :: item in store && item.key == key
  {
    if exists item :: item in store && item.key == key {
      var i :| 0 <= i < |store| && store[i].key == key;
      assert Keys(store)[i] == key;
    }
  }

  lemma {:induction false} OneItemOfKey<V>(store: seq<Item<V>>, a: Item<V>, b: Item<V>)
    requires Distinct(Keys(store)) && a in store && b in store && a.key == b.key
    ensures a == b
  {
    hide Keys;
    var i :| 0 <= i < |store| && store[i] == a;
    var j :| 0 <= j < |store| && store[j] == b;
    assert Keys(store)[i] == a.key == Keys(store)[j];
    assert i == j;
  }

  // ---------- The time to live ----------

  /** A value stored at `storedAt` is young enough to be answered at `now`. */
  ghost predicate Young(cfg: Settings, storedAt: real, now: real) {
    cfg.ttl.Some? ==> now - storedAt <= cfg.ttl.value
  }

  lemma {:induction false} LookupIffYoung<V>(cfg: Settings, store: seq<Item<V>>, i: nat, now: real)
    requires Distinct(Keys(store)) && i < |store|
    ensures
      var (s, hit) := Lookup(cfg, store, store[i].key, now);
      && hit == (if Young(cfg, store[i].storedAt, now) then store[i].value else None)
      && (!Young(cfg, store[i].storedAt, now) ==> store[i].key !in Keys(s))
  {
    var key := store[i].key;
    KeysOfRemove(store, key);
    RemoveKeyMembers(Keys(store), key);
    assert Keys(store)[i] == key == Keys(store)[Find(store, key)];
  }

  /**
   * A request is answered with the stored value if and only if that is not `None` and, at the
   * request's first lookup, no older than the time to live.
   */
  lemma {:induction false} HitIffYoung<V>(cfg: Settings, store: seq<Item<V>>, r: Request<V>, i: nat)
    requires Distinct(Keys(store)) && i < |store| && store[i].key == r.key
    ensures
      var answer := GetOrCompute(cfg, store, r).1;
      && (answer.Hit? <==>
            store[i].value.Some? && (cfg.ttl.None? || r.first - store[i].storedAt <= cfg.ttl.value))
      && (answer.Hit? ==> store[i].value == Some(answer.stored))
  {
    var (s, hit) := Lookup(cfg, store, r.key, r.first);
    LookupIffYoung(cfg, store, i, r.first);
    LookupItems(cfg, store, r.key, r.first);
    if hit == None {
      LookupItems(cfg, s, r.key, r.second);
      if ComputeLocked(cfg, s, r).1.Hit? {
        var item :| item in s && item.key == r.key && item.value.Some?;
        OneItemOfKey(store, item, store[i]);
        KeyIsItems(s, r.key);
      }
    }
  }

  /** With the key's lock held it is the second lookup that counts. */
  lemma {:induction false} LockedHitIffYoung<V>(cfg: Settings, store: seq<Item<V>>, r: Request<V>, i: nat)
    requires Distinct(Keys(store)) && i < |store| && store[i].key == r.key
    ensures
      var answer := ComputeLocked(cfg, store, r).1;
      && (answer.Hit? <==>
            store[i].value.Some? && (cfg.ttl.None? || r.second - store[i].storedAt <= cfg.ttl.value))
      && (answer.Hit? ==> store[i].value == Some(answer.stored))
  {
    LookupIffYoung(cfg, store, i, r.second);
  }

  lemma {:induction false} OneRequestShape<V>(cfg: Settings, store: seq<Item<V>>, r: Request<V>)
    requires Distinct(Keys(store)) && |store| <= cfg.maxSize
    ensures
      var s := GetOrCompute(cfg, store, r).0;
      Distinct(Keys(s)) && |s| <= cfg.maxSize
  {
    if r.computation.Gives? {
      AnswerTouchesKey(cfg, store, r);
    } else {
      FailureStoresNothing(cfg, store, r);
      KeysOfRemove(store, r.key);
      TouchedSpec(Keys(store), r.key, cfg.maxSize);
      var i := Find(store, r.key);
      if i < |store| {
        KeysConcat(Remove(store, r.key), [store[i]]);
        assert Keys([store[i]]) == [r.key];
      }
    }
  }

  /** Every entry was put there by an earlier request, at its third clock reading. */
  ghost predicate StoredByRequests<V>(store: seq<Item<V>>, trace: seq<Request<V>>) {
    forall item :: item in store ==> exists j :: 0 <= j < |trace| && StoredBy(item, trace[j])
  }

  ghost predicate StoredBy<V>(item: Item<V>, r: Request<V>) {
    r.computation.Gives? && item == Item(r.key, r.third, r.computation.value)
  }

  lemma {:induction false} StoreComesFromRequests<V>(cfg: Settings, trace: seq<Request<V>>)
    ensures StoredByRequests(StoreAfter(cfg, trace), trace)
    ensures Distinct(Keys(StoreAfter(cfg, trace))) && |StoreAfter(cfg, trace)| <= cfg.maxSize
  {
    if trace != [] {
      var n := |trace| - 1;
      var before, after := StoreAfter(cfg, trace[..n]), StoreAfter(cfg, trace);
      StoreComesFromRequests(cfg, trace[..n]);
      OneRequestShape(cfg, before, trace[n]);
      RequestItems(cfg, before, trace[n]);
      forall item | item in after ensures exists j :: 0 <= j < |trace| && StoredBy(item, trace[j]) {
        if item in before {
          var j :| 0 <= j < n && StoredBy(item, trace[..n][j]);
          assert StoredBy(item, trace[j]);
        } else {
          assert StoredBy(item, trace[n]);
        }
      }
    }
  }

  lemma {:induction false} HitComesFrom<V>(cfg: Settings, store: seq<Item<V>>, r: Request<V>) returns (item: Item<V>)
    requires Distinct(Keys(store)) && GetOrCompute(cfg, store, r).1.Hit?
    ensures item in store && item.key == r.key && item.value == Some(GetOrCompute(cfg, store, r).1.stored)
    ensures cfg.ttl.Some? ==> r.first - item.storedAt <= cfg.ttl.value
  {
    hide GetOrCompute;
    RequestItems(cfg, store, r);
    item :| item in store && item.key == r.key;
    var i :| 0 <= i < |store| && store[i] == item;
    HitIffYoung(cfg, store, r, i);
  }

  /**
   * Whatever a trace asks for, every value answered from the store was computed for an earlier request
   * of the key, and stored at most the time to live before the lookup that found it.
   */
  lemma {:induction false} HitsAreRecent<V>(cfg: Settings, trace: seq<Request<V>>, n: nat) returns (j: nat)
    requires n < |trace| && GetOrCompute(cfg, StoreAfter(cfg, trace[..n]), trace[n]).1.Hit?
    ensures j < n && trace[j].key == trace[n].key
    ensures trace[j].computation == Gives(Some(GetOrCompute(cfg, StoreAfter(cfg, trace[..n]), trace[n]).1.stored))
    ensures cfg.ttl.Some? ==> trace[n].first - trace[j].third <= cfg.ttl.value
  {
    hide GetOrCompute, StoreAfter;
    var store := StoreAfter(cfg, trace[..n]);
    StoreComesFromRequests(cfg, trace[..n]);
    var item := HitComesFrom(cfg, store, trace[n]);
    j :| 0 <= j < n && StoredBy(item, trace[..n][j]);
  }

  /** The keys of the requests that got an answer. */
  function AnsweredKeys<V>(cfg: Settings, trace: seq<Request<V>>): seq<Key> {
    if trace == [] then []
    else
      var init, last := trace[..|trace| - 1], trace[|trace| - 1];
      if GetOrCompute(cfg, StoreAfter(cfg, init), last).1.Failed? then AnsweredKeys(cfg, init)
      else AnsweredKeys(cfg, init) + [last.key]
  }

  /** Without a time to live and without `None` values, exactly the answered requests touch their keys. */
  lemma {:induction false} TouchedAreAnswered<V>(cfg: Settings, trace: seq<Request<V>>)
    requires cfg.ttl.None? && NoNone(trace)
    ensures TouchedKeys(cfg, trace) == AnsweredKeys(cfg, trace)
  {
    if trace != [] {
      var init, last := trace[..|trace| - 1], trace[|trace| - 1];
      TouchedAreAnswered(cfg, init);
      StoreHasValues(cfg, init);
      ComputesIffAbsent(cfg, StoreAfter(cfg, init), last);
    }
  }

  // ---------- Answers ----------

  /** The value a request gets, if it gets one. */
  function ValueOf<V>(a: Answer<V>): Option<V> {
    match a
    case Hit(v) => Some(v)
    case Computed(v) => v
    case Failed => None
  }

  /** Every computation that succeeds gives its key's value. */
  ghost predicate Pure<V>(trace: seq<Request<V>>, value: Key -> V) {
    forall i :: 0 <= i < |trace| && trace[i].computation.Gives? ==>
      trace[i].computation.value == Some(value(trace[i].key))
  }

  ghost predicate StoresOnly<V>(store: seq<Item<V>>, value: Key -> V) {
    forall item :: item in store ==> item.value == Some(value(item.key))
  }

  lemma {:induction false} RequestIsTransparent<V>(cfg: Settings, store: seq<Item<V>>, r: Request<V>, value: Key -> V)
    requires StoresOnly(store, value)
    requires r.computation.Gives? ==> r.computation.value == Some(value(r.key))
    ensures var (s, a) := GetOrCompute(cfg, store, r);
      StoresOnly(s, value) && (!a.Failed? ==> ValueOf(a) == Some(value(r.key)))
  {
    RequestItems(cfg, store, r);
  }

  /** A cache over a function of the key is invisible: every answer is the function's value. */
  lemma {:induction false} CacheIsTransparent<V>(cfg: Settings, trace: seq<Request<V>>, value: Key -> V)
    requires Pure(trace, value)
    ensures StoresOnly(StoreAfter(cfg, trace), value)
    ensures trace != [] ==>
      var last := trace[|trace| - 1];
      var a := GetOrCompute(cfg, StoreAfter(cfg, trace[..|trace| - 1]), last).1;
      !a.Failed? ==> ValueOf(a) == Some(value(last.key))
  {
    if trace != [] {
      CacheIsTransparent(cfg, trace[..|trace| - 1], value);
      RequestIsTransparent(cfg, StoreAfter(cfg, trace[..|trace| - 1]), trace[|trace| - 1], value);
    }
  }
}
