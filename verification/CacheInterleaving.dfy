/**
 * The result cache under asyncio interleaving: requests wait for per-key locks and computations,
 * and an eviction drops a lock even while requests still wait for it.
 */
module CacheInterleaving {
  import opened Basics
  import opened ResultCache

  /** Where a pending request is: about to ask for its lock, queued at one, or computing under it. */
  datatype Place =
    | Missed(key: Key)
    | Queued(key: Key, lock: nat)
    | Computing(key: Key, lock: nat)

  datatype World<V> = World(
    store: seq<Item<V>>,
    keyLocks: map<Key, nat>,
    holders: map<nat, nat>,
    nextLock: nat,
    calls: map<nat, Place>,
    computed: multiset<Key>)

  function Start<V>(): World<V> {
    World([], map[], map[], 0, map[], multiset{})
  }

  datatype Action<V> =
    | Begin(call: nat, key: Key, now: real)
    | Ask(call: nat)
    | Enter(call: nat, now: real)
    | Finish(call: nat, now: real, computation: Computation<V>)
    | Abandon(call: nat)

  predicate Enabled<V>(w: World<V>, a: Action<V>) {
    match a
    case Begin(call, _, _) => call !in w.calls
    case Ask(call) => call in w.calls && w.calls[call].Missed?
    case Enter(call, _) =>
      call in w.calls && w.calls[call].Queued? && w.calls[call].lock !in w.holders
    case Finish(call, _, _) => call in w.calls && w.calls[call].Computing?
    case Abandon(call) => call in w.calls && !w.calls[call].Computing?
  }

  function Apply<V>(cfg: Settings, w: World<V>, a: Action<V>): World<V>
    requires Enabled(w, a)
  {
    match a
    case Begin(call, key, now) =>
      var (store, hit) := Lookup(cfg, w.store, key, now);
      w.(store := store, calls := if hit.Some? then w.calls else w.calls[call := Missed(key)])
    case Ask(call) =>
      var key := w.calls[call].key;
      if key in w.keyLocks then w.(calls := w.calls[call := Queued(key, w.keyLocks[key])])
      else w.(keyLocks := w.keyLocks[key := w.nextLock], nextLock := w.nextLock + 1,
              calls := w.calls[call := Queued(key, w.nextLock)])
    case Enter(call, now) =>
      var Queued(key, lock) := w.calls[call];
      var (store, hit) := Lookup(cfg, w.store, key, now);
      if hit.Some? then w.(store := store, calls := w.calls - {call})
      else w.(store := store, holders := w.holders[lock := call],
              calls := w.calls[call := Computing(key, lock)])
    case Finish(call, now, computation) =>
      var Computing(key, lock) := w.calls[call];
      var released := w.(holders := w.holders - {lock}, calls := w.calls - {call});
      if computation.Raises? then released
      else released.(
        store := Insert(cfg, w.store, key, computation.value, now),
        keyLocks := w.keyLocks - Evicted(cfg, w.store, key, computation.value, now),
        computed := w.computed + multiset{key})
    case Abandon(call) => w.(calls := w.calls - {call})
  }

  /** Actions that find nothing to do are skipped. */
  function Run<V>(cfg: Settings, w: World<V>, actions: seq<Action<V>>): World<V>
    decreases actions
  {
    if actions == [] then w
    else Run(cfg, if Enabled(w, actions[0]) then Apply(cfg, w, actions[0]) else w, actions[1..])
  }

  /** Requests are made for keys of `keys` only. */
  ghost predicate Over<V>(keys: set<Key>, actions: seq<Action<V>>) {
    forall a :: a in actions && a.Begin? ==> a.key in keys
  }

  /** No two computations of one key are in flight. */
  ghost predicate SingleFlight<V>(w: World<V>) {
    forall c, d ::
      c in w.calls && d in w.calls && w.calls[c].Computing? && w.calls[d].Computing? && c != d ==>
        w.calls[c].key != w.calls[d].key
  }

  // ---------- No more keys than room: single flight ----------

  ghost predicate Guarded<V>(keys: set<Key>, w: World<V>) {
    && Distinct(Keys(w.store))
    && (forall k :: k in Keys(w.store) ==> k in keys)
    && (forall c :: c in w.calls ==> w.calls[c].key in keys)
    && (forall c :: c in w.calls && !w.calls[c].Missed? ==>
          w.calls[c].key in w.keyLocks && w.keyLocks[w.calls[c].key] == w.calls[c].lock)
    && (forall c :: c in w.calls && w.calls[c].Computing? ==>
          w.calls[c].lock in w.holders && w.holders[w.calls[c].lock] == c)
  }

  lemma {:induction false} GuardedIsSingleFlight<V>(keys: set<Key>, w: World<V>)
    requires Guarded(keys, w)
    ensures SingleFlight(w)
  {
  }

  lemma {:induction false} DistinctWithin(s: seq<Key>, keys: set<Key>)
    requires Distinct(s) && forall k :: k in s ==> k in keys
    ensures |s| <= |keys|
  {
    if s != [] {
      var rest := s[1..];
      forall k | k in rest ensures k in keys - {s[0]} {
      }
      DistinctWithin(rest, keys - {s[0]});
    }
  }

  /** A lookup keeps the keys distinct and brings in none. */
  lemma {:induction false} LookupKeepsKeys<V>(cfg: Settings, store: seq<Item<V>>, key: Key, now: real)
    requires Distinct(Keys(store))
    ensures var s := Lookup(cfg, store, key, now).0;
      Distinct(Keys(s)) && forall k :: k in Keys(s) ==> k in Keys(store)
  {
    LookupKeys(cfg, store, key, now);
    RemoveKeyMembers(Keys(store), key);
    RemoveKeyDistinct(Keys(store), key);
  }

  /** With room for every key, an insertion evicts nothing. */
  lemma {:induction false} InsertKeepsKeys<V>(
    cfg: Settings, store: seq<Item<V>>, key: Key, value: Option<V>, now: real, keys: set<Key>)
    requires Distinct(Keys(store)) && key in keys && |keys| <= cfg.maxSize
    requires forall k :: k in Keys(store) ==> k in keys
    ensures var s := Insert(cfg, store, key, value, now);
      && Keys(s) == RemoveKey(Keys(store), key) + [key] && Distinct(Keys(s))
      && (forall k :: k in Keys(s) <==> k in Keys(store) || k == key)
    ensures Evicted(cfg, store, key, value, now) == {}
  {
    var removed := RemoveKey(Keys(store), key);
    KeysOfRemove(store, key);
    InsertKeys(cfg, store, key, value, now);
    RemoveKeyMembers(Keys(store), key);
    RemoveKeyDistinct(Keys(store), key);
    DistinctWithin(removed + [key], keys);
  }

  lemma {:induction false} FinishGuarded<V>(
    cfg: Settings, keys: set<Key>, w: World<V>, call: nat, now: real, computation: Computation<V>)
    requires |keys| <= cfg.maxSize && Guarded(keys, w) && Enabled(w, Finish(call, now, computation))
    ensures Guarded(keys, Apply(cfg, w, Finish(call, now, computation)))
  {
    if computation.Gives? {
      InsertKeepsKeys(cfg, w.store, w.calls[call].key, computation.value, now, keys);
    }
  }

  lemma {:induction false} EnterGuarded<V>(cfg: Settings, keys: set<Key>, w: World<V>, call: nat, now: real)
    requires Guarded(keys, w) && Enabled(w, Enter(call, now))
    ensures Guarded(keys, Apply(cfg, w, Enter(call, now)))
  {
    LookupKeepsKeys(cfg, w.store, w.calls[call].key, now);
  }

  lemma {:induction false} ApplyGuarded<V>(cfg: Settings, keys: set<Key>, w: World<V>, a: Action<V>)
    requires |keys| <= cfg.maxSize && Guarded(keys, w) && Enabled(w, a)
    requires a.Begin? ==> a.key in keys
    ensures Guarded(keys, Apply(cfg, w, a))
  {
    match a
    case Begin(call, key, now) => LookupKeepsKeys(cfg, w.store, key, now);
    case Enter(call, now) => EnterGuarded(cfg, keys, w, call, now);
    case Finish(call, now, computation) => FinishGuarded(cfg, keys, w, call, now, computation);
    case Ask(call) =>
    case Abandon(call) =>
  }

  lemma {:induction false} RunGuarded<V>(cfg: Settings, keys: set<Key>, w: World<V>, actions: seq<Action<V>>)
    requires |keys| <= cfg.maxSize && Guarded(keys, w) && Over(keys, actions)
    ensures Guarded(keys, Run(cfg, w, actions))
    decreases actions
  {
    if actions != [] {
      assert actions[0] in actions;
      if Enabled(w, actions[0]) {
        ApplyGuarded(cfg, keys, w, actions[0]);
      }
      RunGuarded(cfg, keys, if Enabled(w, actions[0]) then Apply(cfg, w, actions[0]) else w, actions[1..]);
    }
  }

  // ---------- ... and without expiry each key is computed once ----------

  ghost predicate GivesNoNone<V>(actions: seq<Action<V>>) {
    forall a :: a in actions && a.Finish? && a.computation.Gives? ==> a.computation.value.Some?
  }

  ghost predicate ComputedOnce<V>(w: World<V>) {
    && ValuesPresent(w.store)
    && (forall k :: w.computed[k] <= 1)
    && (forall k :: k in w.computed ==> k in Keys(w.store))
    && (forall c :: c in w.calls && w.calls[c].Computing? ==> w.calls[c].key !in Keys(w.store))
  }

  /** Without expiry, a lookup misses iff the key is absent, and keeps the set of keys. */
  lemma {:induction false} LookupFinds<V>(cfg: Settings, store: seq<Item<V>>, key: Key, now: real)
    requires cfg.ttl.None? && ValuesPresent(store) && Distinct(Keys(store))
    ensures var (s, hit) := Lookup(cfg, store, key, now);
      && (hit.None? <==> key !in Keys(store))
      && (forall k :: k in Keys(s) <==> k in Keys(store))
      && ValuesPresent(s)
  {
    KeysOfRemove(store, key);
    LookupKeys(cfg, store, key, now);
    LookupItems(cfg, store, key, now);
    RemoveKeyMembers(Keys(store), key);
    var i := Find(store, key);
    if i < |store| {
      assert store[i] in store;
      KeysConcat(Remove(store, key), [store[i]]);
      assert Keys([store[i]]) == [key];
    }
  }

  lemma {:induction false} FinishComputedOnce<V>(
    cfg: Settings, keys: set<Key>, w: World<V>, call: nat, now: real, value: Option<V>)
    requires |keys| <= cfg.maxSize && Guarded(keys, w) && ComputedOnce(w)
    requires Enabled(w, Finish(call, now, Gives(value))) && value.Some?
    ensures ComputedOnce(Apply(cfg, w, Finish(call, now, Gives(value))))
  {
    var key := w.calls[call].key;
    var w' := Apply(cfg, w, Finish(call, now, Gives(value)));
    InsertKeepsKeys(cfg, w.store, key, value, now, keys);
    InsertItems(cfg, w.store, key, value, now);
    GuardedIsSingleFlight(keys, w);
    assert w.computed[key] == 0;
    assert w'.computed == w.computed[key := 1];
  }

  lemma {:induction false} BeginComputedOnce<V>(cfg: Settings, w: World<V>, call: nat, key: Key, now: real)
    requires cfg.ttl.None? && Distinct(Keys(w.store)) && ComputedOnce(w) && Enabled(w, Begin(call, key, now))
    ensures ComputedOnce(Apply(cfg, w, Begin(call, key, now)))
  {
    LookupFinds(cfg, w.store, key, now);
  }

  lemma {:induction false} EnterComputedOnce<V>(cfg: Settings, w: World<V>, call: nat, now: real)
    requires cfg.ttl.None? && Distinct(Keys(w.store)) && ComputedOnce(w) && Enabled(w, Enter(call, now))
    ensures ComputedOnce(Apply(cfg, w, Enter(call, now)))
  {
    LookupFinds(cfg, w.store, w.calls[call].key, now);
  }

  lemma {:induction false} ApplyComputedOnce<V>(cfg: Settings, keys: set<Key>, w: World<V>, a: Action<V>)
    requires |keys| <= cfg.maxSize && cfg.ttl.None?
    requires Guarded(keys, w) && ComputedOnce(w) && Enabled(w, a)
    requires a.Finish? && a.computation.Gives? ==> a.computation.value.Some?
    ensures ComputedOnce(Apply(cfg, w, a))
  {
    if a.Begin? {
      BeginComputedOnce(cfg, w, a.call, a.key, a.now);
    } else if a.Enter? {
      EnterComputedOnce(cfg, w, a.call, a.now);
    } else if a.Finish? && a.computation.Gives? {
      FinishComputedOnce(cfg, keys, w, a.call, a.now, a.computation.value);
    }
  }

  lemma {:induction false} RunComputedOnce<V>(cfg: Settings, keys: set<Key>, w: World<V>, actions: seq<Action<V>>)
    requires |keys| <= cfg.maxSize && cfg.ttl.None?
    requires Guarded(keys, w) && ComputedOnce(w) && Over(keys, actions) && GivesNoNone(actions)
    ensures ComputedOnce(Run(cfg, w, actions))
    decreases actions
  {
    if actions != [] {
      assert actions[0] in actions;
      if Enabled(w, actions[0]) {
        ApplyGuarded(cfg, keys, w, actions[0]);
        ApplyComputedOnce(cfg, keys, w, actions[0]);
      }
      RunComputedOnce(cfg, keys, if Enabled(w, actions[0]) then Apply(cfg, w, actions[0]) else w, actions[1..]);
    }
  }

  /** With room for every key and no expiry, no key is successfully computed twice. */
  lemma {:induction false} EachKeyComputedOnce<V>(cfg: Settings, keys: set<Key>, actions: seq<Action<V>>, key: Key)
    requires |keys| <= cfg.maxSize && cfg.ttl.None? && Over(keys, actions) && GivesNoNone(actions)
    ensures Run(cfg, Start<V>(), actions).computed[key] <= 1
  {
    RunComputedOnce(cfg, keys, Start<V>(), actions);
  }

  // ---------- More keys than room: two computations of one key ----------

  lemma {:induction false} RunConcat<V>(cfg: Settings, w: World<V>, a: seq<Action<V>>, b: seq<Action<V>>)
    ensures Run(cfg, w, a + b) == Run(cfg, Run(cfg, w, a), b)
    decreases a
  {
    if a == [] {
      assert a + b == b;
    } else {
      assert (a + b)[1..] == a[1..] + b;
      RunConcat(cfg, if Enabled(w, a[0]) then Apply(cfg, w, a[0]) else w, a[1..], b);
    }
  }

  lemma {:induction false} FindPresent<V>(store: seq<Item<V>>, key: Key)
    ensures Find(store, key) < |store| <==> key in Keys(store)
  {
    if Find(store, key) < |store| {
      assert Keys(store)[Find(store, key)] == key;
    }
  }

  lemma {:induction false} LookupAbsent<V>(cfg: Settings, store: seq<Item<V>>, key: Key, now: real)
    requires key !in Keys(store)
    ensures Lookup(cfg, store, key, now) == (store, None) && Remove(store, key) == store
  {
    FindPresent(store, key);
  }

  /** One undisturbed request for an absent key, as a sequence of actions. */
  function Undisturbed<V>(call: nat, key: Key, value: V): seq<Action<V>> {
    [Begin(call, key, 0.0), Ask(call), Enter(call, 0.0), Finish(call, 0.0, Gives(Some(value)))]
  }

  /** The request of call 1 for `a` is queued at lock 0, which is free; nothing else is pending. */
  ghost predicate Stalled<V>(w: World<V>, a: Key, stored: seq<Key>) {
    && w.calls == map[1 := Queued(a, 0)] && w.holders == map[] && w.nextLock >= 1
    && Keys(w.store) == stored
    && (a !in stored ==> a !in w.keyLocks)
  }

  lemma {:induction false} DroppedBefore(keys: seq<Key>, n: nat, a: Key) returns (i: nat)
    requires a in keys && a !in TakeLast(keys, n)
    ensures i < |keys| - n && keys[i] == a
  {
    var kept := TakeLast(keys, n);
    forall k | |keys| - |kept| <= k < |keys| ensures keys[k] in kept {
      assert kept[k - (|keys| - |kept|)] == keys[k];
    }
    i :| i < |keys| && keys[i] == a;
  }

  lemma {:induction false} InsertEvicts<V>(
    cfg: Settings, store: seq<Item<V>>, key: Key, value: Option<V>, now: real, a: Key)
    requires key !in Keys(store)
    ensures Keys(Insert(cfg, store, key, value, now)) == TakeLast(Keys(store) + [key], cfg.maxSize)
    ensures a in Keys(store) + [key] && a !in Keys(Insert(cfg, store, key, value, now)) ==>
      a in Evicted(cfg, store, key, value, now)
  {
    var item := Item(key, now, value);
    LookupAbsent(cfg, store, key, now);
    KeysOfPut(store, item, cfg.maxSize);
    KeysConcat(store, [item]);
    assert Keys([item]) == [key];
    var keys := Keys(store + [item]);
    if a in keys && a !in TakeLast(keys, cfg.maxSize) {
      var i := DroppedBefore(keys, cfg.maxSize, a);
      assert (store + [item])[i].key == a;
    }
  }

  lemma {:induction false} RequestUpToComputing<V>(
    cfg: Settings, w: World<V>, a: Key, key: Key) returns (w': World<V>, lock: nat)
    requires w.calls == map[1 := Queued(a, 0)] && w.holders == map[] && key !in Keys(w.store)
    ensures
      var start: Action<V> := Begin(3, key, 0.0);
      && Enabled(w, start)
      && var w1 := Apply(cfg, w, start);
         && Enabled(w1, Ask(3))
         && var w2 := Apply(cfg, w1, Ask(3));
            && Enabled(w2, Enter(3, 0.0))
            && w' == Apply(cfg, w2, Enter(3, 0.0))
    ensures w'.store == w.store && w'.nextLock >= w.nextLock && w'.holders == map[lock := 3]
    ensures w'.calls == map[1 := Queued(a, 0), 3 := Computing(key, lock)]
    ensures forall k :: k in w'.keyLocks <==> k in w.keyLocks || k == key
  {
    LookupAbsent(cfg, w.store, key, 0.0);
    lock := if key in w.keyLocks then w.keyLocks[key] else w.nextLock;
    var w1 := Apply(cfg, w, Begin(3, key, 0.0));
    assert w1.calls == map[1 := Queued(a, 0), 3 := Missed(key)];
    var w2 := Apply(cfg, w1, Ask(3));
    assert w2.calls == map[1 := Queued(a, 0), 3 := Queued(key, lock)];
    w' := Apply(cfg, w2, Enter(3, 0.0));
  }

  lemma {:induction false} UndisturbedRequest<V>(
    cfg: Settings, w: World<V>, a: Key, stored: seq<Key>, key: Key, value: V)
    requires Stalled(w, a, stored) && key !in stored && key != a
    ensures Stalled(Run(cfg, w, Undisturbed(3, key, value)), a, TakeLast(stored + [key], cfg.maxSize))
  {
    var w3, lock := RequestUpToComputing(cfg, w, a, key);
    var w1 := Apply(cfg, w, Begin(3, key, 0.0));
    var w2 := Apply(cfg, w1, Ask(3));
    RunFour(cfg, w, w1, w2, w3, Begin(3, key, 0.0), Ask(3), Enter(3, 0.0), Finish(3, 0.0, Gives(Some(value))));
    InsertEvicts(cfg, w.store, key, Some(value), 0.0, a);
    var w4 := Apply(cfg, w3, Finish(3, 0.0, Gives(Some(value))));
    assert w4.calls == w.calls && w4.holders == map[];
  }

  lemma {:induction false} RunStep<V>(cfg: Settings, w: World<V>, a: Action<V>, rest: seq<Action<V>>)
    requires Enabled(w, a)
    ensures Run(cfg, w, [a] + rest) == Run(cfg, Apply(cfg, w, a), rest)
  {
    assert ([a] + rest)[1..] == rest;
  }

  lemma {:induction false} RunFour<V>(
    cfg: Settings, w: World<V>, w1: World<V>, w2: World<V>, w3: World<V>,
    a: Action<V>, b: Action<V>, c: Action<V>, d: Action<V>)
    requires Enabled(w, a) && w1 == Apply(cfg, w, a)
    requires Enabled(w1, b) && w2 == Apply(cfg, w1, b)
    requires Enabled(w2, c) && w3 == Apply(cfg, w2, c)
    requires Enabled(w3, d)
    ensures Run(cfg, w, [a, b, c, d]) == Apply(cfg, w3, d)
  {
    RunStep(cfg, w, a, [b, c, d]);
    RunStep(cfg, w1, b, [c, d]);
    RunStep(cfg, w2, c, [d]);
    RunStep(cfg, w3, d, []);
    assert [a] + [b, c, d] == [a, b, c, d];
    assert [b] + [c, d] == [b, c, d] && [c] + [d] == [c, d] && [d] + [] == [d];
  }

  function Fill<V>(keys: seq<Key>, value: V): seq<Action<V>> {
    if keys == [] then [] else Fill(keys[..|keys| - 1], value) + Undisturbed(3, keys[|keys| - 1], value)
  }

  lemma {:induction false} FillPushesOut<V>(cfg: Settings, w: World<V>, a: Key, keys: seq<Key>, value: V)
    requires Distinct([a] + keys) && Stalled(w, a, TakeLast([a], cfg.maxSize))
    ensures Stalled(Run(cfg, w, Fill(keys, value)), a, TakeLast([a] + keys, cfg.maxSize))
  {
    if keys != [] {
      var init, last := keys[..|keys| - 1], keys[|keys| - 1];
      assert [a] + keys == ([a] + init) + [last];
      DistinctInit([a] + init, last);
      FillPushesOut(cfg, w, a, init, value);
      var stored := TakeLast([a] + init, cfg.maxSize);
      TakeLastSnoc([a] + init, last, cfg.maxSize);
      assert a in [a] + init;
      RunConcat(cfg, w, Fill(init, value), Undisturbed(3, last, value));
      UndisturbedRequest(cfg, Run(cfg, w, Fill(init, value)), a, stored, last, value);
    } else {
      assert [a] + keys == [a];
    }
  }

  lemma {:induction false} TakeLastSnoc(s: seq<Key>, last: Key, n: nat)
    ensures TakeLast(TakeLast(s, n) + [last], n) == TakeLast(s + [last], n)
    ensures forall k :: k in TakeLast(s, n) ==> k in s
  {
  }

  lemma {:induction false} DistinctInit(init: seq<Key>, last: Key)
    requires Distinct(init + [last])
    ensures Distinct(init) && last !in init
  {
    var all := init + [last];
    forall i | 0 <= i < |init| ensures init[i] != last {
      assert all[i] != all[|init|];
    }
    forall i, j | 0 <= i < j < |init| ensures init[i] != init[j] {
      assert all[i] != all[j];
    }
  }

  /** Call 0 computes `a` while call 1 queues behind it; call 0 finishes. */
  function Opening<V>(a: Key, value: V): seq<Action<V>> {
    [Begin(0, a, 0.0), Ask(0), Enter(0, 0.0), Begin(1, a, 0.0)]
    + [Ask(1), Finish(0, 0.0, Gives(Some(value)))]
  }

  lemma {:induction false} OpeningStalls<V>(cfg: Settings, a: Key, value: V)
    ensures Stalled(Run(cfg, Start<V>(), Opening(a, value)), a, TakeLast([a], cfg.maxSize))
  {
    var w := Start<V>();
    var first := [Begin(0, a, 0.0), Ask(0), Enter(0, 0.0), Begin(1, a, 0.0)];
    var w1 := Apply(cfg, w, first[0]);
    var w2 := Apply(cfg, w1, first[1]);
    var w3 := Apply(cfg, w2, first[2]);
    var w4 := Apply(cfg, w3, first[3]);
    RunFour(cfg, w, w1, w2, w3, first[0], first[1], first[2], first[3]);
    assert w4.store == [] && w4.keyLocks == map[a := 0] && w4.holders == map[0 := 0] && w4.nextLock == 1;
    assert w4.calls == map[0 := Computing(a, 0), 1 := Missed(a)];
    InsertEvicts<V>(cfg, [], a, Some(value), 0.0, a);
    var w5 := Apply(cfg, w4, Ask(1));
    var w6 := Apply(cfg, w5, Finish(0, 0.0, Gives(Some(value))));
    assert Stalled(w6, a, TakeLast([a], cfg.maxSize)) by {
      assert w6.calls == map[1 := Queued(a, 0)];
      assert Keys<V>([]) + [a] == [a];
    }
    var finish := Finish(0, 0.0, Gives(Some(value)));
    var second := [Ask(1), finish];
    RunStep(cfg, w4, Ask(1), [finish]);
    RunStep(cfg, w5, finish, []);
    assert [Ask(1)] + [finish] == second && [finish] + [] == [finish];
    RunConcat(cfg, w, first, second);
  }

  /** The stalled request enters its old lock; a newcomer gets a new one and enters too. */
  function Closing<V>(a: Key): seq<Action<V>> {
    [Enter(1, 0.0), Begin(2, a, 0.0), Ask(2), Enter(2, 0.0)]
  }

  lemma {:induction false} ClosingCollides<V>(cfg: Settings, w: World<V>, a: Key, stored: seq<Key>)
    requires Stalled(w, a, stored) && a !in stored
    ensures !SingleFlight(Run(cfg, w, Closing(a)))
  {
    LookupAbsent(cfg, w.store, a, 0.0);
    var c := Closing<V>(a);
    var w1 := Apply(cfg, w, c[0]);
    var w2 := Apply(cfg, w1, c[1]);
    var w3 := Apply(cfg, w2, c[2]);
    RunFour(cfg, w, w1, w2, w3, c[0], c[1], c[2], c[3]);
    var r := Run(cfg, w, c);
    assert r.calls[1] == Computing(a, 0) && r.calls[2] == Computing(a, w.nextLock);
  }

  lemma {:induction false} PickDistinct(keys: set<Key>, n: nat) returns (s: seq<Key>)
    requires n <= |keys|
    ensures |s| == n && Distinct(s) && forall k :: k in s ==> k in keys
  {
    s := [];
    if n > 0 {
      var k :| k in keys;
      var rest := PickDistinct(keys - {k}, n - 1);
      s := [k] + rest;
    }
  }

  /** An interleaving with two computations of one key in flight, over keys that do not all fit. */
  lemma {:induction false} Collision<V>(cfg: Settings, keys: set<Key>, value: V) returns (actions: seq<Action<V>>)
    requires |keys| > cfg.maxSize
    ensures Over(keys, actions) && !SingleFlight(Run(cfg, Start<V>(), actions))
  {
    var a :| a in keys;
    var others := PickDistinct(keys - {a}, cfg.maxSize);
    assert Distinct([a] + others);
    var opening, fill, closing := Opening(a, value), Fill(others, value), Closing<V>(a);
    OpeningStalls(cfg, a, value);
    var w := Run(cfg, Start<V>(), opening);
    FillPushesOut(cfg, w, a, others, value);
    assert TakeLast([a] + others, cfg.maxSize) == others;
    ClosingCollides(cfg, Run(cfg, w, fill), a, others);
    RunConcat(cfg, Start<V>(), opening, fill);
    RunConcat(cfg, Start<V>(), opening + fill, closing);
    actions := opening + fill + closing;
    CollisionOver(keys, a, others, value);
  }

  lemma {:induction false} CollisionOver<V>(keys: set<Key>, a: Key, others: seq<Key>, value: V)
    requires a in keys && forall k :: k in others ==> k in keys
    ensures Over(keys, Opening(a, value) + Fill(others, value) + Closing<V>(a))
  {
    FillOver(others, value);
  }

  lemma {:induction false} FillOver<V>(keys: seq<Key>, value: V)
    ensures forall x :: x in Fill(keys, value) && x.Begin? ==> x.key in keys
  {
    if keys != [] {
      FillOver(keys[..|keys| - 1], value);
    }
  }

  /**
   * At most one computation per key is in flight in every interleaving of requests over `keys`,
   * failures, expiries and cancelled waiters included, if and only if all the keys fit.
   */
  lemma {:induction false} SingleFlightIffKeysFit<V>(cfg: Settings, keys: set<Key>, value: V)
    ensures (forall actions: seq<Action<V>> :: Over(keys, actions) ==>
               SingleFlight(Run(cfg, Start<V>(), actions)))
       <==> |keys| <= cfg.maxSize
  {
    if |keys| <= cfg.maxSize {
      forall actions: seq<Action<V>> | Over(keys, actions)
        ensures SingleFlight(Run(cfg, Start<V>(), actions))
      {
        RunGuarded(cfg, keys, Start<V>(), actions);
        GuardedIsSingleFlight(keys, Run(cfg, Start<V>(), actions));
      }
    } else {
      var actions := Collision(cfg, keys, value);
    }
  }
}
