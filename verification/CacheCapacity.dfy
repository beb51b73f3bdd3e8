/** Result caches of different capacities under the same requests (app/core/cache.py). */
module CacheCapacity {
  import opened Basics
  import opened ResultCache

  // ---------- Subsequences ----------

  /** `a` is `b` without some of its keys. */
  predicate Sub(a: seq<Key>, b: seq<Key>)
    decreases |b|
  {
    || a == []
    || (b != [] && if a[0] == b[0] then Sub(a[1..], b[1..]) else Sub(a, b[1..]))
  }

  lemma {:induction false} SubMembers(a: seq<Key>, b: seq<Key>)
    requires Sub(a, b)
    ensures forall k :: k in a ==> k in b
    ensures |a| <= |b| && (|a| == |b| ==> a == b)
    decreases |b|
  {
    if a != [] {
      if a[0] == b[0] {
        SubMembers(a[1..], b[1..]);
        assert a == [a[0]] + a[1..] && b == [b[0]] + b[1..];
      } else {
        SubMembers(a, b[1..]);
      }
    }
  }

  lemma {:induction false} SubTail(a: seq<Key>, b: seq<Key>)
    requires a != [] && Sub(a, b)
    ensures Sub(a[1..], b)
    decreases |b|, 0
  {
    if a[0] == b[0] {
      SubCons(a[1..], b);
    } else {
      SubTail(a, b[1..]);
      SubCons(a[1..], b);
    }
  }

  lemma {:induction false} SubCons(a: seq<Key>, b: seq<Key>)
    requires b != [] && Sub(a, b[1..])
    ensures Sub(a, b)
    decreases |b| - 1, 1
  {
    if a != [] && a[0] == b[0] {
      SubTail(a, b[1..]);
    }
  }

  lemma {:induction false} SubSnoc(a: seq<Key>, b: seq<Key>, key: Key)
    requires Sub(a, b)
    ensures Sub(a + [key], b + [key])
    decreases |b|
  {
    if b != [] {
      assert (b + [key])[1..] == b[1..] + [key];
      if a == [] {
        SubSnoc([], b[1..], key);
        SubCons(a + [key], b + [key]);
      } else {
        assert (a + [key])[1..] == a[1..] + [key];
        if a[0] == b[0] {
          SubSnoc(a[1..], b[1..], key);
        } else {
          SubSnoc(a, b[1..], key);
        }
      }
    }
  }

  lemma {:induction false} SubRemove(a: seq<Key>, b: seq<Key>, key: Key)
    requires Sub(a, b)
    ensures Sub(RemoveKey(a, key), RemoveKey(b, key))
    decreases |b|
  {
    if a != [] {
      if a[0] == b[0] {
        SubRemove(a[1..], b[1..], key);
      } else {
        SubRemove(a, b[1..], key);
        if b[0] != key {
          assert RemoveKey(b, key)[1..] == RemoveKey(b[1..], key);
          SubCons(RemoveKey(a, key), RemoveKey(b, key));
        }
      }
    }
  }

  // ---------- One request at two capacities ----------

  /** The keys after one request without a time to live. */
  function Requested(keys: seq<Key>, key: Key, gives: bool, n: nat): seq<Key> {
    if gives || key in keys then Touched(keys, key, n) else keys
  }

  /** The smaller cache holds part of the larger one's keys in the same order, all while it has room. */
  ghost predicate Included(small: seq<Key>, large: seq<Key>, n: nat, m: nat) {
    && Distinct(small) && |small| <= n && Distinct(large) && |large| <= m
    && Sub(small, large) && (|small| < n ==> small == large)
  }

  lemma {:induction false} StoredKeyIncluded(small: seq<Key>, large: seq<Key>, n: nat, m: nat, key: Key)
    requires n <= m && Included(small, large, n, m) && key in small
    ensures Included(Touched(small, key, n), Touched(large, key, m), n, m)
  {
    SubMembers(small, large);
    TouchedSpec(small, key, n);
    TouchedSpec(large, key, m);
    SubRemove(small, large, key);
    SubSnoc(RemoveKey(small, key), RemoveKey(large, key), key);
    RemoveKeyLength(small, key);
  }

  /** The larger cache still has the key; the smaller one is full and may take it back. */
  lemma {:induction false} LostKeyIncluded(small: seq<Key>, large: seq<Key>, n: nat, m: nat, key: Key, gives: bool)
    requires n <= m && Included(small, large, n, m) && key !in small && key in large
    ensures Included(Requested(small, key, gives, n), Touched(large, key, m), n, m)
  {
    assert |small| == n;
    TouchedSpec(small, key, n);
    TouchedSpec(large, key, m);
    SubRemove(small, large, key);
    RemoveKeyAbsent(small, key);
    var rest := RemoveKey(large, key);
    if gives && n > 0 {
      assert Touched(small, key, n) == small[1..] + [key];
      SubTail(small, rest);
      SubSnoc(small[1..], rest, key);
    } else if !gives {
      SubLonger(small, rest, key);
    }
  }

  lemma {:induction false} SubLonger(a: seq<Key>, b: seq<Key>, key: Key)
    requires Sub(a, b)
    ensures Sub(a, b + [key])
  {
    SubSnoc(a, b, key);
    SubInit(a, key, b + [key]);
  }

  lemma {:induction false} SubInit(a: seq<Key>, key: Key, b: seq<Key>)
    requires Sub(a + [key], b)
    ensures Sub(a, b)
    decreases |b|
  {
    if a != [] {
      assert (a + [key])[1..] == a[1..] + [key];
      if a[0] == b[0] {
        SubInit(a[1..], key, b[1..]);
      } else {
        SubInit(a, key, b[1..]);
      }
    }
  }

  lemma {:induction false} NewKeyIncluded(small: seq<Key>, large: seq<Key>, n: nat, m: nat, key: Key)
    requires n <= m && Included(small, large, n, m) && key !in small && key !in large
    ensures Included(Touched(small, key, n), Touched(large, key, m), n, m)
  {
    TouchedSpec(small, key, n);
    TouchedSpec(large, key, m);
    RemoveKeyAbsent(small, key);
    RemoveKeyAbsent(large, key);
    SubMembers(small, large);
    if n > 0 {
      var a := if |small| == n then small[1..] else small;
      var b := if |large| == m then large[1..] else large;
      assert Touched(small, key, n) == a + [key] && Touched(large, key, m) == b + [key];
      if |large| == m && |small| == n && small[0] != large[0] {
        SubTail(small, large[1..]);
      } else if |large| < m && |small| == n {
        SubTail(small, large);
      }
      SubSnoc(a, b, key);
    }
  }

  lemma {:induction false} RequestIncluded(small: seq<Key>, large: seq<Key>, n: nat, m: nat, key: Key, gives: bool)
    requires n <= m && Included(small, large, n, m)
    ensures Included(Requested(small, key, gives, n), Requested(large, key, gives, m), n, m)
  {
    SubMembers(small, large);
    if key in small {
      StoredKeyIncluded(small, large, n, m, key);
    } else if key in large {
      LostKeyIncluded(small, large, n, m, key, gives);
    } else if gives {
      NewKeyIncluded(small, large, n, m, key);
    }
  }

  // ---------- Whole traces ----------

  /**
   * Without a time to live, whatever raises, a cache with more room holds everything a smaller one
   * holds, in the same order.
   */
  lemma {:induction false} LargerCacheIncludes<V>(small: Settings, large: Settings, trace: seq<Request<V>>)
    requires small.ttl.None? && large.ttl.None? && small.maxSize <= large.maxSize
    ensures Included(Keys(StoreAfter(small, trace)), Keys(StoreAfter(large, trace)), small.maxSize, large.maxSize)
  {
    if trace != [] {
      var init, last := trace[..|trace| - 1], trace[|trace| - 1];
      LargerCacheIncludes(small, large, init);
      OneRequest(small, StoreAfter(small, init), last);
      OneRequest(large, StoreAfter(large, init), last);
      RequestIncluded(Keys(StoreAfter(small, init)), Keys(StoreAfter(large, init)),
                      small.maxSize, large.maxSize, last.key, last.computation.Gives?);
    }
  }

  /** The smaller cache's keys are the end of the larger one's. */
  ghost predicate IsSuffix<V>(small: Settings, large: Settings, trace: seq<Request<V>>) {
    Keys(StoreAfter(small, trace)) == TakeLast(Keys(StoreAfter(large, trace)), small.maxSize)
  }

  /** The request raises for a key that only the larger cache holds. */
  predicate HitsOnlyInLarge<V>(small: Settings, large: Settings, before: seq<Request<V>>, r: Request<V>) {
    && r.computation.Raises? && r.key !in Keys(StoreAfter(small, before)) && r.key in Keys(StoreAfter(large, before))
  }

  lemma {:induction false} SuffixFromTouches<V>(small: Settings, large: Settings, trace: seq<Request<V>>)
    requires (small.ttl.None? && large.ttl.None?) || NoneRaises(trace)
    requires small.maxSize <= large.maxSize
    requires TouchedKeys(small, trace) == TouchedKeys(large, trace)
    ensures IsSuffix(small, large, trace)
  {
    StoreIsByRecency(small, trace);
    StoreIsByRecency(large, trace);
    TakeLastTwice(ByRecency(TouchedKeys(small, trace)), small.maxSize, large.maxSize);
  }

  /** While no computation raises, time to live or not, they are always its end. */
  lemma {:induction false} AnsweredSuffix<V>(small: Settings, large: Settings, trace: seq<Request<V>>)
    requires NoneRaises(trace) && small.maxSize <= large.maxSize
    ensures IsSuffix(small, large, trace)
  {
    SameTouches(small, large, trace);
    SuffixFromTouches(small, large, trace);
  }

  lemma {:induction false} SameTouches<V>(small: Settings, large: Settings, trace: seq<Request<V>>)
    requires NoneRaises(trace)
    ensures TouchedKeys(small, trace) == TouchedKeys(large, trace)
  {
    if trace != [] {
      SameTouches(small, large, trace[..|trace| - 1]);
    }
  }

  lemma {:induction false} LostKeyBreaksSuffix(small: seq<Key>, large: seq<Key>, n: nat, m: nat, key: Key)
    requires 0 < n <= m && Included(small, large, n, m) && key !in small && key in large
    ensures TakeLast(Touched(large, key, m), n) != small
  {
    TouchedSpec(large, key, m);
    var moved := Touched(large, key, m);
    assert moved[|moved| - 1] == key;
    SubMembers(small, large);
    assert small != [];
    var tail := TakeLast(moved, n);
    assert tail[|tail| - 1] == key;
    assert small[|small| - 1] in small;
  }

  lemma {:induction false} LostHitBreaksSuffix<V>(small: Settings, large: Settings, trace: seq<Request<V>>, i: nat)
    requires small.ttl.None? && large.ttl.None? && 0 < small.maxSize <= large.maxSize
    requires i < |trace| && HitsOnlyInLarge(small, large, trace[..i], trace[i])
    ensures !IsSuffix(small, large, trace[..i + 1])
  {
    var init, last := trace[..i], trace[i];
    assert trace[..i + 1][..i] == init && trace[..i + 1][i] == last;
    LargerCacheIncludes(small, large, init);
    OneRequest(small, StoreAfter(small, init), last);
    OneRequest(large, StoreAfter(large, init), last);
    LostKeyBreaksSuffix(Keys(StoreAfter(small, init)), Keys(StoreAfter(large, init)),
                        small.maxSize, large.maxSize, last.key);
  }

  /**
   * Without a time to live, a smaller cache that can hold anything is the end of the larger one
   * throughout a trace if and only if no request raises for a key that only the larger one holds.
   */
  lemma {:induction false} SuffixIff<V>(small: Settings, large: Settings, trace: seq<Request<V>>)
    requires small.ttl.None? && large.ttl.None? && 0 < small.maxSize <= large.maxSize
    ensures (forall i :: 0 <= i <= |trace| ==> IsSuffix(small, large, trace[..i]))
       <==> (forall i :: 0 <= i < |trace| ==> !HitsOnlyInLarge(small, large, trace[..i], trace[i]))
  {
    if forall i :: 0 <= i < |trace| ==> !HitsOnlyInLarge(small, large, trace[..i], trace[i]) {
      forall i | 0 <= i <= |trace| ensures IsSuffix(small, large, trace[..i]) {
        SameTouchesUpTo(small, large, trace, i);
        SuffixFromTouches(small, large, trace[..i]);
      }
    } else {
      var i :| 0 <= i < |trace| && HitsOnlyInLarge(small, large, trace[..i], trace[i]);
      LostHitBreaksSuffix(small, large, trace, i);
    }
  }

  lemma {:induction false} SameTouchesUpTo<V>(small: Settings, large: Settings, trace: seq<Request<V>>, n: nat)
    requires small.ttl.None? && large.ttl.None? && small.maxSize <= large.maxSize && n <= |trace|
    requires forall i :: 0 <= i < |trace| ==> !HitsOnlyInLarge(small, large, trace[..i], trace[i])
    ensures TouchedKeys(small, trace[..n]) == TouchedKeys(large, trace[..n])
  {
    if n > 0 {
      SameTouchesUpTo(small, large, trace, n - 1);
      assert trace[..n][..n - 1] == trace[..n - 1];
      LargerCacheIncludes(small, large, trace[..n - 1]);
      SubMembers(Keys(StoreAfter(small, trace[..n - 1])), Keys(StoreAfter(large, trace[..n - 1])));
      assert !HitsOnlyInLarge(small, large, trace[..n - 1], trace[n - 1]);
    }
  }

  // ---------- When a key can be in the larger cache only ----------

  /** Different keys for different numbers. */
  function KeyNo(i: nat): Key {
    seq(i, _ => 'k')
  }

  function FirstKeys(n: nat): (keys: seq<Key>)
    ensures |keys| == n
    ensures forall i :: 0 <= i < n ==> keys[i] == KeyNo(i) && |keys[i]| == i
    ensures Distinct(keys)
  {
    seq(n, i requires 0 <= i => KeyNo(i))
  }

  /** One answered request for each of the first keys. */
  function FirstRequests<V>(n: nat): seq<Request<V>> {
    if n == 0 then [] else FirstRequests(n - 1) + [Request(KeyNo(n - 1), 0.0, 0.0, 0.0, Gives(None))]
  }

  lemma {:induction false} OneMoreStored<V>(cfg: Settings, before: seq<Request<V>>, r: Request<V>)
    ensures StoreAfter(cfg, before + [r]) == GetOrCompute(cfg, StoreAfter(cfg, before), r).0
  {
    assert (before + [r])[..|before|] == before;
  }

  lemma {:induction false} FreshKeyTouched(n: nat, size: nat)
    ensures Touched(TakeLast(FirstKeys(n), size), KeyNo(n), size) == TakeLast(FirstKeys(n + 1), size)
  {
    TouchedOfTail(FirstKeys(n), KeyNo(n), size);
    RemoveKeyAbsent(FirstKeys(n), KeyNo(n));
    assert FirstKeys(n + 1) == FirstKeys(n) + [KeyNo(n)];
  }

  lemma {:induction false} FirstKeysStored<V>(cfg: Settings, n: nat)
    requires cfg.ttl.None?
    ensures Keys(StoreAfter(cfg, FirstRequests<V>(n))) == TakeLast(FirstKeys(n), cfg.maxSize)
  {
    hide GetOrCompute, Touched, TakeLast;
    if n > 0 {
      var before, last := FirstRequests<V>(n - 1), Request(KeyNo(n - 1), 0.0, 0.0, 0.0, Gives(None));
      FirstKeysStored<V>(cfg, n - 1);
      StoreIsByRecency(cfg, before);
      OneRequest(cfg, StoreAfter(cfg, before), last);
      OneMoreStored(cfg, before, last);
      FreshKeyTouched(n - 1, cfg.maxSize);
    } else {
      NothingStored<V>(cfg);
    }
  }

  lemma {:induction false} NothingStored<V>(cfg: Settings)
    ensures Keys(StoreAfter(cfg, FirstRequests<V>(0))) == TakeLast(FirstKeys(0), cfg.maxSize)
  {
  }

  /** Without a time to live some request can find its key in the larger cache only, if that is larger. */
  lemma {:induction false} LostHitIffSmaller<V>(small: Settings, large: Settings)
    requires small.ttl.None? && large.ttl.None? && small.maxSize <= large.maxSize
    ensures (exists before: seq<Request<V>>, r: Request<V> :: HitsOnlyInLarge(small, large, before, r))
       <==> small.maxSize < large.maxSize
  {
    if small.maxSize < large.maxSize {
      var n := small.maxSize + 1;
      FirstKeysStored<V>(small, n);
      FirstKeysStored<V>(large, n);
      assert FirstKeys(n)[0] == KeyNo(0);
      assert HitsOnlyInLarge(small, large, FirstRequests<V>(n), Request(KeyNo(0), 0.0, 0.0, 0.0, Raises));
    } else {
      forall before: seq<Request<V>>, r: Request<V> ensures !HitsOnlyInLarge(small, large, before, r) {
        LargerCacheIncludes(small, large, before);
        SubMembers(Keys(StoreAfter(small, before)), Keys(StoreAfter(large, before)));
      }
    }
  }

  /** How many computations run, failing ones included. */
  function Computations<V>(cfg: Settings, trace: seq<Request<V>>): nat {
    if trace == [] then 0
    else
      var init, last := trace[..|trace| - 1], trace[|trace| - 1];
      Computations(cfg, init) + if GetOrCompute(cfg, StoreAfter(cfg, init), last).1.Hit? then 0 else 1
  }

  // ---------- The keys that are answered from the store ----------

  /** The key is stored with a value other than `None`. */
  ghost predicate HasValue<V>(store: seq<Item<V>>, key: Key) {
    exists item :: item in store && item.key == key && item.value.Some?
  }

  lemma {:induction false} HasValueAt<V>(store: seq<Item<V>>, key: Key)
    requires Distinct(Keys(store))
    ensures HasValue(store, key) <==> Find(store, key) < |store| && store[Find(store, key)].value.Some?
  {
    var i := Find(store, key);
    if i < |store| && HasValue(store, key) {
      var item :| item in store && item.key == key && item.value.Some?;
      OneItemOfKey(store, item, store[i]);
    }
  }

  lemma {:induction false} LookupFindsValue<V>(cfg: Settings, store: seq<Item<V>>, key: Key, now: real)
    requires cfg.ttl.None? && Distinct(Keys(store))
    ensures
      var (s, hit) := Lookup(cfg, store, key, now);
      && (hit.Some? <==> HasValue(store, key))
      && (forall item :: item in s <==> item in store)
  {
    var i := Find(store, key);
    HasValueAt(store, key);
    if i < |store| {
      assert store == store[..i] + [store[i]] + store[i + 1..];
    }
  }

  /** Without a time to live a request is answered from the store just when its key has a value there. */
  lemma {:induction false} HitIffValue<V>(cfg: Settings, store: seq<Item<V>>, r: Request<V>)
    requires cfg.ttl.None? && Distinct(Keys(store)) && |store| <= cfg.maxSize
    ensures GetOrCompute(cfg, store, r).1.Hit? <==> HasValue(store, r.key)
    ensures HasValue(GetOrCompute(cfg, store, r).0, r.key) <==>
      HasValue(store, r.key) || (cfg.maxSize > 0 && r.computation.Gives? && r.computation.value.Some?)
  {
    var (s1, hit) := Lookup(cfg, store, r.key, r.first);
    LookupFindsValue(cfg, store, r.key, r.first);
    TouchedSpec(Keys(store), r.key, cfg.maxSize);
    LookupKeys(cfg, store, r.key, r.first);
    if hit == None {
      var (s2, hit') := Lookup(cfg, s1, r.key, r.second);
      LookupFindsValue(cfg, s1, r.key, r.second);
      SecondLookupKeys(cfg, s1, Keys(store), r.key, r.second);
      if r.computation.Gives? {
        InsertedValue(cfg, s2, r.key, r.computation.value, r.third);
      }
    }
  }

  lemma {:induction false} InsertedValue<V>(
    cfg: Settings, store: seq<Item<V>>, key: Key, value: Option<V>, now: real)
    requires Distinct(Keys(store))
    ensures HasValue(Insert(cfg, store, key, value, now), key) <==> cfg.maxSize > 0 && value.Some?
  {
    var others, item := Remove(store, key), Item(key, now, value);
    RemovedIsAbsent(store, key);
    var put := others + [item];
    assert forall i :: 0 <= i < |put| - 1 ==> put[i].key != key;
    if cfg.maxSize > 0 {
      var kept := TakeLast(put, cfg.maxSize);
      assert kept[|kept| - 1] == item;
    }
  }

  /** For every other key only its eviction matters. */
  lemma {:induction false} OtherValues<V>(cfg: Settings, store: seq<Item<V>>, r: Request<V>, key: Key)
    requires cfg.ttl.None? && Distinct(Keys(store)) && |store| <= cfg.maxSize && key != r.key
    ensures
      var s := GetOrCompute(cfg, store, r).0;
      HasValue(s, key) <==> HasValue(store, key) && key in Keys(s)
  {
    var s := GetOrCompute(cfg, store, r).0;
    RequestItems(cfg, store, r);
    KeyIsItems(s, key);
    if HasValue(store, key) && key in Keys(s) {
      var item :| item in store && item.key == key && item.value.Some?;
      var left :| left in s && left.key == key;
      OneItemOfKey(store, item, left);
    }
  }

  /** What the smaller cache answers from its store, the larger one answers too. */
  ghost predicate AnswersMore<V>(small: seq<Item<V>>, large: seq<Item<V>>) {
    forall key :: HasValue(small, key) ==> HasValue(large, key)
  }

  lemma {:induction false} StillAnswersMore<V>(
    small: Settings, large: Settings, a: seq<Item<V>>, b: seq<Item<V>>, r: Request<V>)
    requires small.ttl.None? && large.ttl.None? && small.maxSize <= large.maxSize
    requires Included(Keys(a), Keys(b), small.maxSize, large.maxSize) && AnswersMore(a, b)
    ensures AnswersMore(GetOrCompute(small, a, r).0, GetOrCompute(large, b, r).0)
  {
    var a', b' := GetOrCompute(small, a, r).0, GetOrCompute(large, b, r).0;
    OneRequest(small, a, r);
    OneRequest(large, b, r);
    RequestIncluded(Keys(a), Keys(b), small.maxSize, large.maxSize, r.key, r.computation.Gives?);
    SubMembers(Keys(a'), Keys(b'));
    HitIffValue(small, a, r);
    HitIffValue(large, b, r);
    forall key | HasValue(a', key) ensures HasValue(b', key) {
      if key != r.key {
        OtherValues(small, a, r, key);
        OtherValues(large, b, r, key);
      }
    }
  }

  lemma {:induction false} LargerCacheAnswersMore<V>(small: Settings, large: Settings, trace: seq<Request<V>>)
    requires small.ttl.None? && large.ttl.None? && small.maxSize <= large.maxSize
    ensures AnswersMore(StoreAfter(small, trace), StoreAfter(large, trace))
  {
    if trace != [] {
      var init, last := trace[..|trace| - 1], trace[|trace| - 1];
      LargerCacheAnswersMore(small, large, init);
      LargerCacheIncludes(small, large, init);
      StillAnswersMore(small, large, StoreAfter(small, init), StoreAfter(large, init), last);
    }
  }

  /** Without a time to live, whatever raises or gives `None`, more room never means more computations. */
  lemma {:induction false} LargerCacheComputesLess<V>(small: Settings, large: Settings, trace: seq<Request<V>>)
    requires small.ttl.None? && large.ttl.None? && small.maxSize <= large.maxSize
    ensures Computations(large, trace) <= Computations(small, trace)
  {
    if trace != [] {
      var init, last := trace[..|trace| - 1], trace[|trace| - 1];
      LargerCacheComputesLess(small, large, init);
      LargerCacheIncludes(small, large, init);
      LargerCacheAnswersMore(small, large, init);
      HitIffValue(small, StoreAfter(small, init), last);
      HitIffValue(large, StoreAfter(large, init), last);
    }
  }
}
