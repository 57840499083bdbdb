/** The memo table in front of a slow load, with its counters. A load looks the key up, runs the fallback on a
    miss, and stores what the fallback returns; the lookup and the storing are separate steps, so that loads by
    several callers can interleave. */
module DigestCache {
  import opened Results
  import opened Lru

  /** `pending` holds the keys of the fallbacks under way; `overwrites` counts results stored over another one. */
  datatype CacheState<V> = CacheState(entries: Entries<string, V>, pending: multiset<string>, hits: nat, misses: nat,
                                      failures: nat, evictions: nat, overwrites: nat)

  function Empty<V>(): CacheState<V> { CacheState([], multiset{}, 0, 0, 0, 0, 0) }

  function Begin<V>(s: CacheState<V>, k: string): CacheState<V> {
    if Lookup(s.entries, k).Some? then s.(entries := Touch(s.entries, k), hits := s.hits + 1)
    else s.(misses := s.misses + 1, pending := s.pending + multiset{k})
  }

  /** A fallback under way for `k` ends with a value, or fails. */
  function Finish<V>(s: CacheState<V>, capacity: nat, k: string, result: Option<V>): CacheState<V> {
    var s1 := s.(pending := s.pending - multiset{k});
    if result.None? then s1.(failures := s.failures + 1) else
      var es := Push(s.entries, k, result.value);
      s1.(entries := Fit(es, capacity),
          evictions := s.evictions + (if Overflow(es, capacity).Some? then 1 else 0),
          overwrites := s.overwrites + (if Lookup(s.entries, k).Some? then 1 else 0))
  }

  /** A load that nobody interrupts. */
  function LoadSpec<V>(s: CacheState<V>, capacity: nat, k: string, result: Option<V>): CacheState<V> {
    if Lookup(s.entries, k).Some? then Begin(s, k) else Finish(Begin(s, k), capacity, k, result)
  }

  datatype Step<V> = Started(key: string) | Ended(key: string, result: Option<V>)

  function Apply<V>(s: CacheState<V>, capacity: nat, step: Step<V>): CacheState<V> {
    match step
    case Started(k) => Begin(s, k)
    case Ended(k, result) => if k in s.pending then Finish(s, capacity, k, result) else s
  }

  function Run<V>(s: CacheState<V>, capacity: nat, steps: seq<Step<V>>): CacheState<V>
    decreases |steps|
  {
    if steps == [] then s else Run(Apply(s, capacity, steps[0]), capacity, steps[1..])
  }

  // ---------------------------------------------------------------------------------------------------
  // Counters
  // ---------------------------------------------------------------------------------------------------

  ghost predicate Balanced<V>(s: CacheState<V>, capacity: nat) {
    && Distinct(s.entries) && WithinCapacity(s.entries, capacity)
    && s.misses == |s.entries| + s.failures + s.evictions + s.overwrites + |s.pending|
  }

  lemma BeginKeepsBalance<V>(s: CacheState<V>, capacity: nat, k: string)
    requires Balanced(s, capacity)
    ensures Balanced(Begin(s, k), capacity)
  {
    TouchFacts(s.entries, k);
  }

  lemma FinishKeepsBalance<V>(s: CacheState<V>, capacity: nat, k: string, result: Option<V>)
    requires Balanced(s, capacity) && k in s.pending
    ensures Balanced(Finish(s, capacity, k, result), capacity)
  {
    if result.Some? {
      PushFacts(s.entries, k, result.value);
      FitFacts(Push(s.entries, k, result.value), capacity);
    }
  }

  /** Whatever the interleaving: every miss is accounted for by an entry, a failed or running fallback, an eviction,
      or a result stored over another one. */
  lemma {:induction false} MissesAreAccountedFor<V>(s: CacheState<V>, capacity: nat, steps: seq<Step<V>>)
    requires Balanced(s, capacity)
    ensures Balanced(Run(s, capacity, steps), capacity)
    decreases |steps|
  {
    if steps != [] {
      match steps[0] {
        case Started(k) => BeginKeepsBalance(s, capacity, k);
        case Ended(k, result) => if k in s.pending { FinishKeepsBalance(s, capacity, k, result); }
      }
      MissesAreAccountedFor(Apply(s, capacity, steps[0]), capacity, steps[1..]);
    }
  }

  /** How many loads a run starts. */
  function Starts<V>(steps: seq<Step<V>>): nat {
    if steps == [] then 0 else (if steps[0].Started? then 1 else 0) + Starts(steps[1..])
  }

  /** Every load that starts is a hit or a miss. */
  lemma {:induction false} LoadsAreCounted<V>(s: CacheState<V>, capacity: nat, steps: seq<Step<V>>)
    ensures var s' := Run(s, capacity, steps); s'.hits + s'.misses == s.hits + s.misses + Starts(steps)
    decreases |steps|
  {
    if steps != [] { LoadsAreCounted(Apply(s, capacity, steps[0]), capacity, steps[1..]); }
  }

  /** Two loads of one key at a time: the second result is stored over the first. */
  lemma {:induction false} ConcurrentLoadsOverwrite<V>(capacity: nat, k: string, v: V, w: V)
    ensures var s := Run(Empty(), capacity, [Started(k), Started(k), Ended(k, Some(v)), Ended(k, Some(w))]);
      s.entries == [(k, w)] && s.misses == 2 && s.overwrites == 1
  {
    var s1: CacheState<V> := Apply(Empty(), capacity, Started(k));
    var s2 := Apply(s1, capacity, Started(k));
    var s3 := Apply(s2, capacity, Ended(k, Some(v)));
    var s4 := Apply(s3, capacity, Ended(k, Some(w)));
    assert s3.entries == [(k, v)];
    assert Remove([(k, v)], k) == [] by { assert [(k, v)][1..] == []; }
    assert s4.entries == [(k, w)];
    var steps := [Started(k), Started(k), Ended(k, Some(v)), Ended(k, Some(w))];
    assert steps[1..][1..][1..][1..] == [];
    assert Run(s4, capacity, steps[1..][1..][1..][1..]) == s4;
    assert steps[1..][1..][1..][0] == Ended(k, Some(w));
    assert Run(s3, capacity, steps[1..][1..][1..]) == s4;
    assert steps[1..][1..][0] == Ended(k, Some(v));
    assert Run(s2, capacity, steps[1..][1..]) == s4;
    assert Run(s1, capacity, steps[1..]) == s4;
  }

  lemma LoadKeepsCount<V>(s: CacheState<V>, capacity: nat, k: string, result: Option<V>)
    requires Balanced(s, capacity) && s.pending == multiset{} && s.overwrites == 0
    ensures var s' := LoadSpec(s, capacity, k, result);
      Balanced(s', capacity) && s'.pending == multiset{} && s'.overwrites == 0
  {
    BeginKeepsBalance(s, capacity, k);
    if Lookup(s.entries, k).None? {
      FinishKeepsBalance(Begin(s, k), capacity, k, result);
      assert multiset{k} - multiset{k} == multiset{};
    }
  }

  // ---------------------------------------------------------------------------------------------------
  // Contents
  // ---------------------------------------------------------------------------------------------------

  /** An entry after a step was there before, or is the result that a fallback for its key just returned: a failure
      is never cached, and no entry changes hands. */
  lemma {:induction false} OnlyResultsAreStored<V>(s: CacheState<V>, capacity: nat, step: Step<V>, j: string)
    requires Distinct(s.entries)
    ensures var now := Lookup(Apply(s, capacity, step).entries, j);
      && (now.None? || now == Lookup(s.entries, j) || (step == Ended(j, now) && j in s.pending))
      && Distinct(Apply(s, capacity, step).entries)
  {
    match step
    case Started(k) => TouchFacts(s.entries, k);
    case Ended(k, result) =>
      if k in s.pending && result.Some? {
        PushFacts(s.entries, k, result.value);
        FitFacts(Push(s.entries, k, result.value), capacity);
      }
  }

  lemma {:induction false} LoadStoresItsResult<V>(s: CacheState<V>, capacity: nat, k: string, result: Option<V>)
    requires Distinct(s.entries)
    ensures var es := LoadSpec(s, capacity, k, result).entries;
      && (Lookup(s.entries, k).None? ==> Lookup(es, k) == result)
      && forall j :: j != k && Lookup(es, j).Some? ==> Lookup(es, j) == Lookup(s.entries, j)
  {
    TouchFacts(s.entries, k);
    if result.Some? {
      PushFacts(s.entries, k, result.value);
      FitFacts(Push(s.entries, k, result.value), capacity);
    }
  }

  /** Some load in the run ended with this value for this key. */
  ghost predicate Returned<V>(steps: seq<Step<V>>, k: string, v: Option<V>) {
    exists i :: 0 <= i < |steps| && steps[i] == Ended(k, v)
  }

  /** Over any interleaving, a cached value is the result of a successful fallback for the very same key. */
  lemma {:induction false} CachedWasReturned<V>(s: CacheState<V>, capacity: nat, steps: seq<Step<V>>, k: string)
    requires Distinct(s.entries)
    ensures var now := Lookup(Run(s, capacity, steps).entries, k);
      now.None? || now == Lookup(s.entries, k) || Returned(steps, k, now)
    decreases |steps|
  {
    if steps != [] {
      var s1 := Apply(s, capacity, steps[0]);
      OnlyResultsAreStored(s, capacity, steps[0], k);
      CachedWasReturned(s1, capacity, steps[1..], k);
      var now := Lookup(Run(s, capacity, steps).entries, k);
      if Returned(steps[1..], k, now) {
        var i :| 0 <= i < |steps[1..]| && steps[1..][i] == Ended(k, now);
        assert steps[i + 1] == Ended(k, now);
      } else if now.Some? && now == Lookup(s1.entries, k) && now != Lookup(s.entries, k) {
        assert steps[0] == Ended(k, now);
      }
    }
  }

  // ---------------------------------------------------------------------------------------------------
  // The cache as an object, used by one caller at a time
  // ---------------------------------------------------------------------------------------------------

  class DigestObjectCache<V> {
    const cache: Cache<string, V>
    var hits: nat
    var misses: nat
    var evictions: nat
    var size: int
    ghost var failures: nat

    ghost function State(): CacheState<V>
      reads this, cache
    {
      CacheState(cache.entries, multiset{}, hits, misses, failures, evictions, 0)
    }

    /** Misses less failures less evictions is the length, and so is the size gauge. */
    ghost predicate Valid()
      reads this, cache
    {
      cache.Valid() && Balanced(State(), cache.capacity) && size == |cache.entries|
    }

    constructor (capacity: nat)
      ensures Valid() && fresh(cache) && State() == Empty() && cache.capacity == capacity
    {
      cache := new Cache<string, V>(capacity);
      hits, misses, evictions, failures, size := 0, 0, 0, 0, 0;
    }

    /** The value under the key, without modifying what is stored. */
    method Get(k: string) returns (r: Option<V>)
      requires Valid()
      modifies this, cache
      ensures Valid()
      ensures r == Lookup(old(cache.entries), k)
      ensures r.Some? ==> State() == old(Begin(State(), k))
      ensures r.None? ==> State() == old(State())
    {
      BeginKeepsBalance(State(), cache.capacity, k);
      r := cache.Get(k);
      if r.Some? { hits := hits + 1; }
    }

    /** After a miss: count it, and store the result of the fallback unless it failed. */
    method Complete(k: string, result: Option<V>)
      requires Valid() && Lookup(cache.entries, k).None?
      modifies this, cache
      ensures Valid()
      ensures State() == old(LoadSpec(State(), cache.capacity, k, result))
    {
      LoadKeepsCount(State(), cache.capacity, k, result);
      assert multiset{} + multiset{k} - multiset{k} == multiset{};
      misses := misses + 1;
      if result.None? {
        failures := failures + 1;
        return;
      }
      var evicted := cache.Add(k, result.value);
      if evicted.Some? {
        size := size - 1;
        evictions := evictions + 1;
      }
      size := |cache.entries|;
    }
  }
}
