/** A budget on the keys one cache may hold, with eviction of the lightest
    (api/cache_budget.py). */
module CacheBudget {
  import opened Seqs

  type Key = nat

  const MAX_KEY_LENGTH := 256
  const EVICTION_ATTEMPTS := 5

  /** What a caller asks to store. */
  datatype Write = Write(key: Key, keyLength: nat, size: nat, cost: Option<int>)

  function Weight(w: Write): int { if w.cost.None? then 0 else w.cost.value }

  /** The least-cost member of the cost set. */
  ghost predicate IsLightest(costs: map<Key, int>, k: Key) {
    k in costs && forall j :: j in costs ==> costs[k] <= costs[j]
  }

  // ---- One writer at a time -------------------------------------------------------------------------------------------

  /** One cache. The index and the cost set share one TTL, and so does every value. */
  class Cache {
    const maxKeys: nat
    const maxValueBytes: nat
    const minCost: int
    const ttl: nat

    var index: map<Key, nat>   // expiry of each counted key
    var costs: map<Key, int>
    var until: nat             // when the two sets themselves expire
    var values: map<Key, nat>  // expiry of each stored value
    ghost var clock: nat

    constructor (maxKeys: nat, maxValueBytes: nat, minCost: int, ttl: nat)
      requires ttl > 0
      ensures Valid() && index == map[] && values == map[]
      ensures this.maxKeys == maxKeys && this.maxValueBytes == maxValueBytes && this.minCost == minCost && this.ttl == ttl
    {
      this.maxKeys, this.maxValueBytes, this.minCost, this.ttl := maxKeys, maxValueBytes, minCost, ttl;
      index, costs, until, values, clock := map[], map[], 0, map[], 0;
    }

    /** The index and the cost set name the same keys, no more than the budget, and every
        stored value is counted for as long as it lives. */
    ghost predicate Valid()
      reads this
    {
      ttl > 0 && |index.Keys| <= maxKeys && until <= clock + ttl && Counted(index, costs, until, values, clock)
    }

    /** The keys a reader can still get at time `t`. */
    ghost function Live(t: nat): set<Key>
      reads this
    {
      set k | k in values && values[k] > t
    }

    /** At every later time the live keys are within the budget. */
    lemma LiveWithinBudget(t: nat)
      requires Valid() && t >= clock
      ensures Live(t) <= index.Keys && |Live(t)| <= maxKeys
    {
      Subset(Live(t), index.Keys);
    }

    /** Drop what expired: the whole sets if their own TTL passed, else the entries. */
    method Prune(now: nat)
      requires Valid() && now >= clock
      modifies this`index, this`costs, this`clock
      ensures Valid() && clock == now
      ensures index == PrunedIndex(old(index), now) && costs == PrunedCosts(old(index), old(costs), now)
    {
      PrunedCounted(index, costs, until, values, clock, now);
      if now >= until {
        index, costs := map[], map[];
      } else {
        var expired := set k | k in index && index[k] <= now;
        costs := costs - expired;
        index := index - expired;
      }
      clock := now;
    }

    /** Remove the lightest entry if it is strictly cheaper than `cost`. With one writer the
        first candidate decides. */
    method EvictLightestBelow(cost: int) returns (freed: bool, ghost victim: Key)
      requires Valid()
      modifies this`index, this`costs, this`values
      ensures Valid()
      ensures freed ==> IsLightest(old(costs), victim) && old(costs)[victim] < cost && |index.Keys| < |old(index).Keys|
      ensures freed ==> index == old(index) - {victim} && costs == old(costs) - {victim} && values == old(values) - {victim}
      ensures !freed ==> index == old(index) && costs == old(costs) && values == old(values) && forall k :: k in costs ==> cost <= costs[k]
    {
      victim := 0;
      if costs == map[] { return false, 0; }
      var lightest := Lightest(costs);
      victim := lightest;
      if cost <= costs[lightest] { return false, lightest; }
      EvictedCounted(index, costs, until, values, clock, lightest);
      costs, index, values := costs - {lightest}, index - {lightest}, values - {lightest};
      freed := true;
    }

    /** The write itself, once it has a slot. */
    method Put(w: Write, now: nat)
      requires Valid() && now == clock && (w.key in index || |index.Keys| < maxKeys)
      modifies this`index, this`costs, this`until, this`values
      ensures Valid()
      ensures index == old(index)[w.key := now + ttl] && costs == old(costs)[w.key := Weight(w)] && values == old(values)[w.key := now + ttl]
    {
      PutCounted(index, costs, until, values, clock, w, now + ttl);
      index, costs := index[w.key := now + ttl], costs[w.key := Weight(w)];
      until := now + ttl;
      values := values[w.key := now + ttl];
    }

    predicate Acceptable(w: Write) {
      w.keyLength <= MAX_KEY_LENGTH && w.size <= maxValueBytes && (w.cost.Some? ==> w.cost.value >= minCost)
    }

    /** `store_within_budget`. An acceptable write is stored unless the budget is full of
        entries at least as costly; and it displaces nothing that lives, but for one lightest
        entry, strictly cheaper, of a full budget. */
    method Store(w: Write, now: nat) returns (stored: bool, ghost evicted: set<Key>)
      requires Valid() && now >= clock
      modifies this`index, this`costs, this`until, this`values, this`clock
      ensures Valid()
      ensures !Acceptable(w) ==> !stored && index == old(index) && costs == old(costs) && values == old(values)
      ensures Acceptable(w) ==>
                && StoreDecided(PrunedIndex(old(index), now), PrunedCosts(old(index), old(costs), now), maxKeys, w, stored, evicted)
                && index == AfterIndex(PrunedIndex(old(index), now), w, now + ttl, stored, evicted)
                && costs == AfterCosts(PrunedCosts(old(index), old(costs), now), w, stored, evicted)
                && values == AfterIndex(old(values), w, now + ttl, stored, evicted)
    {
      if w.keyLength > MAX_KEY_LENGTH || w.size > maxValueBytes { return false, {}; }
      if w.cost.Some? && w.cost.value < minCost { return false, {}; }
      Prune(now);
      stored, evicted := Admit(w, now);
    }

    /** Take a slot, evicting for it if need be, and write. */
    method Admit(w: Write, now: nat) returns (stored: bool, ghost evicted: set<Key>)
      requires Valid() && clock == now
      modifies this`index, this`costs, this`until, this`values
      ensures Valid() && StoreDecided(old(index), old(costs), maxKeys, w, stored, evicted)
      ensures index == AfterIndex(old(index), w, now + ttl, stored, evicted) && costs == AfterCosts(old(costs), w, stored, evicted)
      ensures values == AfterIndex(old(values), w, now + ttl, stored, evicted)
    {
      evicted := {};
      if w.key !in index && |index.Keys| >= maxKeys {
        ghost var victim;
        stored, victim := EvictLightestBelow(Weight(w));
        if !stored { return; }
        evicted := {victim};
      } else {
        NoneEvicted(index);
        NoneEvicted(costs);
        NoneEvicted(values);
      }
      Put(w, now);
      stored := true;
    }
  }

  ghost predicate Counted(index: map<Key, nat>, costs: map<Key, int>, until: nat, values: map<Key, nat>, clock: nat) {
    var holds :=
      && index.Keys == costs.Keys && (forall k :: k in index ==> index[k] <= until)
      && (forall k :: k in values && values[k] > clock ==> k in index && index[k] == values[k]);
    holds
  }

  /** What pruning leaves is counted, and is nothing at all once the sets' own TTL passed. */
  lemma PrunedCounted(index: map<Key, nat>, costs: map<Key, int>, until: nat, values: map<Key, nat>, clock: nat, now: nat)
    requires Counted(index, costs, until, values, clock) && now >= clock
    ensures Counted(PrunedIndex(index, now), PrunedCosts(index, costs, now), until, values, now)
    ensures |PrunedIndex(index, now).Keys| <= |index.Keys|
    ensures now >= until ==> PrunedIndex(index, now) == map[] && PrunedCosts(index, costs, now) == map[]
    ensures var expired := set k | k in index && index[k] <= now; PrunedIndex(index, now) == index - expired && PrunedCosts(index, costs, now) == costs - expired
  {
    Subset(PrunedIndex(index, now).Keys, index.Keys);
  }

  lemma EvictedCounted(index: map<Key, nat>, costs: map<Key, int>, until: nat, values: map<Key, nat>, clock: nat, v: Key)
    requires Counted(index, costs, until, values, clock) && v in costs
    ensures Counted(index - {v}, costs - {v}, until, values - {v}, clock) && |(index - {v}).Keys| < |index.Keys|
  {
  }

  lemma PutCounted(index: map<Key, nat>, costs: map<Key, int>, until: nat, values: map<Key, nat>, clock: nat, w: Write, expiry: nat)
    requires Counted(index, costs, until, values, clock) && until <= expiry
    ensures Counted(index[w.key := expiry], costs[w.key := Weight(w)], expiry, values[w.key := expiry], clock)
    ensures |index[w.key := expiry].Keys| == if w.key in index then |index.Keys| else |index.Keys| + 1
  {
  }

  /** Stored exactly when counted already, when there is room, or when some entry is strictly
      cheaper; an eviction takes one lightest entry of a full budget. */
  ghost predicate StoreDecided(live: map<Key, nat>, cost: map<Key, int>, maxKeys: nat, w: Write, stored: bool, evicted: set<Key>) {
    && (stored <==> w.key in live || |live.Keys| < maxKeys || SomeCheaper(cost, Weight(w)))
    && (evicted != {} ==> stored && w.key !in live && |live.Keys| == maxKeys)
    && (forall v :: v in evicted ==> evicted == {v} && IsLightest(cost, v) && cost[v] < Weight(w))
  }

  ghost predicate SomeCheaper(cost: map<Key, int>, weight: int) {
    exists k :: k in cost && cost[k] < weight
  }

  function AfterIndex(live: map<Key, nat>, w: Write, expiry: nat, stored: bool, evicted: set<Key>): map<Key, nat> {
    if stored then (live - evicted)[w.key := expiry] else live
  }

  function AfterCosts(cost: map<Key, int>, w: Write, stored: bool, evicted: set<Key>): map<Key, int> {
    if stored then (cost - evicted)[w.key := Weight(w)] else cost
  }

  lemma NoneEvicted<V>(m: map<Key, V>)
    ensures m - {} == m
  {
  }

  /** The entries that have not expired at `now`. */
  function PrunedIndex(index: map<Key, nat>, now: nat): map<Key, nat> {
    map k | k in index && index[k] > now :: index[k]
  }

  function PrunedCosts(index: map<Key, nat>, costs: map<Key, int>, now: nat): map<Key, int> {
    map k | k in costs && k in index && index[k] > now :: costs[k]
  }

  method Lightest(costs: map<Key, int>) returns (k: Key)
    requires costs != map[]
    ensures IsLightest(costs, k)
  {
    var pending := costs.Keys;
    k :| k in pending;
    while pending != {}
      invariant pending <= costs.Keys && k in costs && forall j :: j in costs && j !in pending ==> costs[k] <= costs[j]
      decreases pending
    {
      var j :| j in pending;
      if costs[j] < costs[k] { k := j; }
      pending := pending - {j};
    }
  }

  lemma OneFewer<T>(a: set<T>, x: T)
    requires x in a
    ensures |a - {x}| == |a| - 1
  {
  }

  lemma OneMore<T>(a: set<T>, x: T)
    ensures |a + {x}| == if x in a then |a| else |a| + 1
  {
    if x in a { assert a + {x} == a; }
  }
}
