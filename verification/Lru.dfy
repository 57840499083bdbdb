/** The least-recently-used table of k8s.io/utils/lru: a recency list, most recent entry first.
    Capacity 0 means no limit. Eviction callbacks are left to the owner, who gets the evicted entries. */
module Lru {
  import opened Results

  type Entries<K, V> = seq<(K, V)>

  ghost predicate Distinct<K, V>(es: Entries<K, V>) {
    forall i, j :: 0 <= i < j < |es| ==> es[i].0 != es[j].0
  }

  function Lookup<K(==), V>(es: Entries<K, V>, k: K): Option<V> {
    if es == [] then None else if es[0].0 == k then Some(es[0].1) else Lookup(es[1..], k)
  }

  function Remove<K(==), V>(es: Entries<K, V>, k: K): (r: Entries<K, V>)
    ensures |r| <= |es|
  {
    if es == [] then [] else (if es[0].0 == k then [] else [es[0]]) + Remove(es[1..], k)
  }

  /** Put an entry at the front, replacing the one under the same key. */
  function Push<K(==), V>(es: Entries<K, V>, k: K, v: V): Entries<K, V> { [(k, v)] + Remove(es, k) }

  function Touch<K(==), V>(es: Entries<K, V>, k: K): Entries<K, V> {
    match Lookup(es, k)
    case None => es
    case Some(v) => Push(es, k, v)
  }

  function Overflow<K, V>(es: Entries<K, V>, capacity: nat): Option<(K, V)> {
    if capacity != 0 && |es| > capacity then Some(es[|es| - 1]) else None
  }

  function Fit<K, V>(es: Entries<K, V>, capacity: nat): Entries<K, V> {
    if capacity != 0 && |es| > capacity then es[..|es| - 1] else es
  }

  ghost predicate WithinCapacity<K, V>(es: Entries<K, V>, capacity: nat) {
    capacity != 0 ==> |es| <= capacity
  }

  lemma {:induction false} LookupAbsent<K, V>(es: Entries<K, V>, k: K)
    requires forall i :: 0 <= i < |es| ==> es[i].0 != k
    ensures Lookup(es, k) == None
  {
    if es != [] {
      LookupAbsent(es[1..], k);
    }
  }

  lemma HeadNotInTail<K, V>(es: Entries<K, V>)
    requires Distinct(es) && es != []
    ensures Lookup(es[1..], es[0].0) == None
  {
    LookupAbsent(es[1..], es[0].0);
  }

  lemma {:induction false} LookupAt<K, V>(es: Entries<K, V>, i: nat)
    requires Distinct(es) && i < |es|
    ensures Lookup(es, es[i].0) == Some(es[i].1)
  {
    if i > 0 {
      assert es[0].0 != es[i].0;
      LookupAt(es[1..], i - 1);
    }
  }

  lemma {:induction false} RemoveFacts<K, V>(es: Entries<K, V>, k: K)
    requires Distinct(es)
    ensures Distinct(Remove(es, k))
    ensures forall j :: 0 <= j < |Remove(es, k)| ==> exists i :: 0 <= i < |es| && Remove(es, k)[j] == es[i] && es[i].0 != k
    ensures |Remove(es, k)| == if Lookup(es, k).Some? then |es| - 1 else |es|
  {
    if es != [] {
      var t, r := Remove(es, k), Remove(es[1..], k);
      RemoveFacts(es[1..], k);
      forall j | 0 <= j < |r| ensures exists i :: 0 < i < |es| && r[j] == es[i] && es[i].0 != k {
        var i :| 0 <= i < |es[1..]| && r[j] == es[1..][i] && es[1..][i].0 != k;
        assert r[j] == es[i + 1];
      }
      if es[0].0 == k {
        HeadNotInTail(es);
      } else {
        assert t == [es[0]] + r;
        forall j | 0 <= j < |t| ensures exists i :: 0 <= i < |es| && t[j] == es[i] && es[i].0 != k {
          if j > 0 { assert t[j] == r[j - 1]; } else { assert t[j] == es[0]; }
        }
      }
    }
  }

  lemma {:induction false} LookupRemove<K, V>(es: Entries<K, V>, k: K, j: K)
    requires Distinct(es)
    ensures Lookup(Remove(es, k), j) == if j == k then None else Lookup(es, j)
  {
    if es != [] {
      LookupRemove(es[1..], k, j);
      if es[0].0 == k {
        assert Remove(es, k) == Remove(es[1..], k);
      } else {
        assert Remove(es, k)[0] == es[0] && Remove(es, k)[1..] == Remove(es[1..], k);
      }
    }
  }

  lemma {:induction false} PushFacts<K(!new), V>(es: Entries<K, V>, k: K, v: V)
    requires Distinct(es)
    ensures Distinct(Push(es, k, v))
    ensures forall j :: Lookup(Push(es, k, v), j) == if j == k then Some(v) else Lookup(es, j)
    ensures |Push(es, k, v)| == if Lookup(es, k).Some? then |es| else |es| + 1
  {
    RemoveFacts(es, k);
    var p, r := Push(es, k, v), Remove(es, k);
    forall i | 1 <= i < |p| ensures p[0].0 != p[i].0 {
      assert p[i] == r[i - 1];
    }
    forall j ensures Lookup(p, j) == if j == k then Some(v) else Lookup(es, j) {
      assert p[1..] == r;
      LookupRemove(es, k, j);
    }
  }

  /** Looking up a key changes the recency of entries but not what is stored. */
  lemma {:induction false} TouchFacts<K(!new), V>(es: Entries<K, V>, k: K)
    requires Distinct(es)
    ensures Distinct(Touch(es, k)) && |Touch(es, k)| == |es|
    ensures forall j :: Lookup(Touch(es, k), j) == Lookup(es, j)
  {
    if Lookup(es, k).Some? {
      PushFacts(es, k, Lookup(es, k).value);
    }
  }

  lemma {:induction false} LookupFront<K, V>(es: Entries<K, V>, j: K)
    requires Distinct(es) && es != []
    ensures var last := es[|es| - 1];
      Lookup(es[..|es| - 1], j) == if j == last.0 then None else Lookup(es, j)
  {
    var n := |es| - 1;
    if n > 0 {
      assert es[..n][1..] == es[1..][..n - 1];
      LookupFront(es[1..], j);
      assert es[0].0 != es[n].0;
    }
  }

  /** What leaves on overflow is exactly one entry, and it is not the newest. */
  lemma {:induction false} FitFacts<K(!new), V>(es: Entries<K, V>, capacity: nat)
    requires Distinct(es)
    ensures Distinct(Fit(es, capacity))
    ensures var out := Overflow(es, capacity);
      && (forall j :: Lookup(Fit(es, capacity), j) == if out.Some? && j == out.value.0 then None else Lookup(es, j))
      && (out.Some? ==> Lookup(es, out.value.0) == Some(out.value.1) && |es| > 1 && out.value.0 != es[0].0)
    ensures |es| <= capacity + 1 ==> WithinCapacity(Fit(es, capacity), capacity)
    ensures WithinCapacity(es, capacity) ==> Fit(es, capacity) == es && Overflow(es, capacity).None?
  {
    if capacity != 0 && |es| > capacity {
      forall j ensures Lookup(Fit(es, capacity), j) == if j == es[|es| - 1].0 then None else Lookup(es, j) {
        LookupFront(es, j);
      }
      LookupAt(es, |es| - 1);
      assert es[0].0 != es[|es| - 1].0;
    }
  }

  /** A table after an entry was added: it is in, and at most one other entry is out. */
  lemma {:induction false} AddFacts<K(!new), V>(es: Entries<K, V>, capacity: nat, k: K, v: V)
    requires Distinct(es) && WithinCapacity(es, capacity)
    ensures var out, es' := Overflow(Push(es, k, v), capacity), Fit(Push(es, k, v), capacity);
      && Distinct(es') && WithinCapacity(es', capacity)
      && (out.Some? ==> out.value.0 != k && Lookup(es, out.value.0) == Some(out.value.1))
      && forall j :: Lookup(es', j) ==
           if j == k then Some(v) else if out.Some? && j == out.value.0 then None else Lookup(es, j)
  {
    PushFacts(es, k, v);
    FitFacts(Push(es, k, v), capacity);
  }

  // ---------------------------------------------------------------------------------------------------
  // What was used recently stays
  // ---------------------------------------------------------------------------------------------------

  datatype Use<K, V> = Got(key: K) | Added(key: K, value: V)

  function AfterUse<K(==), V>(es: Entries<K, V>, capacity: nat, use: Use<K, V>): Entries<K, V> {
    match use
    case Got(k) => Touch(es, k)
    case Added(k, v) => Fit(Push(es, k, v), capacity)
  }

  function AfterUses<K(==), V>(es: Entries<K, V>, capacity: nat, uses: seq<Use<K, V>>): Entries<K, V>
    decreases |uses|
  {
    if uses == [] then es else AfterUses(AfterUse(es, capacity, uses[0]), capacity, uses[1..])
  }

  /** `k` is in the table, and only entries of keys in `used` are ahead of it. */
  ghost predicate BehindOnly<K(!new), V>(es: Entries<K, V>, k: K, used: set<K>) {
    exists i :: 0 <= i < |es| && es[i].0 == k && forall j :: 0 <= j < i ==> es[j].0 in used
  }

  lemma {:induction false} RemoveKeepsBehind<K(!new), V>(es: Entries<K, V>, k: K, used: set<K>, x: K)
    requires BehindOnly(es, k, used) && x != k
    ensures BehindOnly(Remove(es, x), k, used)
  {
    var i :| 0 <= i < |es| && es[i].0 == k && forall j :: 0 <= j < i ==> es[j].0 in used;
    var rest := Remove(es[1..], x);
    if i == 0 {
      assert Remove(es, x)[0] == es[0];
    } else {
      assert es[1..][i - 1].0 == k && forall j :: 0 <= j < i - 1 ==> es[1..][j] == es[j + 1];
      assert BehindOnly(es[1..], k, used);
      RemoveKeepsBehind(es[1..], k, used, x);
      var n :| 0 <= n < |rest| && rest[n].0 == k && forall j :: 0 <= j < n ==> rest[j].0 in used;
      if es[0].0 == x {
        assert Remove(es, x) == rest;
      } else {
        assert es[0].0 in used;
        assert Remove(es, x) == [es[0]] + rest;
        assert Remove(es, x)[n + 1] == rest[n];
      }
    }
  }

  lemma PushKeepsBehind<K(!new), V>(es: Entries<K, V>, k: K, used: set<K>, x: K, v: V)
    requires BehindOnly(es, k, used) && x in used && x != k
    ensures BehindOnly(Push(es, x, v), k, used)
  {
    RemoveKeepsBehind(es, k, used, x);
    var rest, pushed := Remove(es, x), Push(es, x, v);
    var n :| 0 <= n < |rest| && rest[n].0 == k && forall j :: 0 <= j < n ==> rest[j].0 in used;
    assert pushed[n + 1] == rest[n] && forall j :: 1 <= j < n + 1 ==> pushed[j] == rest[j - 1];
  }

  lemma PushPutsFirst<K(!new), V>(es: Entries<K, V>, k: K, used: set<K>, v: V)
    ensures BehindOnly(Push(es, k, v), k, used)
  {
    assert Push(es, k, v)[0].0 == k;
  }

  lemma {:induction false} KeysCount<K(!new), V>(es: Entries<K, V>, i: nat, used: set<K>)
    requires Distinct(es) && i <= |es| && forall j :: 0 <= j < i ==> es[j].0 in used
    ensures i <= |used|
    decreases i
  {
    if i > 0 {
      var x := es[i - 1].0;
      forall j | 0 <= j < i - 1 ensures es[j].0 in used - {x} {
        assert es[j].0 != es[i - 1].0;
      }
      KeysCount(es, i - 1, used - {x});
    }
  }

  lemma FitKeepsBehind<K(!new), V>(es: Entries<K, V>, capacity: nat, k: K, used: set<K>)
    requires Distinct(es) && BehindOnly(es, k, used) && (capacity != 0 ==> |used| < capacity)
    ensures BehindOnly(Fit(es, capacity), k, used)
  {
    var i :| 0 <= i < |es| && es[i].0 == k && forall j :: 0 <= j < i ==> es[j].0 in used;
    KeysCount(es, i, used);
    assert i < |Fit(es, capacity)| && Fit(es, capacity)[i] == es[i];
  }

  lemma UseKeepsBehind<K(!new), V>(es: Entries<K, V>, capacity: nat, k: K, used: set<K>, use: Use<K, V>)
    requires Distinct(es) && BehindOnly(es, k, used) && (capacity != 0 ==> |used| < capacity)
    requires use.key in used || use.key == k
    ensures Distinct(AfterUse(es, capacity, use)) && BehindOnly(AfterUse(es, capacity, use), k, used)
  {
    match use
    case Got(x) =>
      TouchFacts(es, x);
      if Lookup(es, x).Some? {
        var v := Lookup(es, x).value;
        if x == k { PushPutsFirst(es, k, used, v); } else { PushKeepsBehind(es, k, used, x, v); }
      }
    case Added(x, v) =>
      if x == k { PushPutsFirst(es, k, used, v); } else { PushKeepsBehind(es, k, used, x, v); }
      PushFacts(es, x, v);
      FitKeepsBehind(Push(es, x, v), capacity, k, used);
      FitFacts(Push(es, x, v), capacity);
  }

  lemma {:induction false} RunKeepsBehind<K(!new), V>(es: Entries<K, V>, capacity: nat, k: K, used: set<K>,
      uses: seq<Use<K, V>>)
    requires Distinct(es) && BehindOnly(es, k, used) && (capacity != 0 ==> |used| < capacity)
    requires forall i :: 0 <= i < |uses| ==> uses[i].key in used || uses[i].key == k
    ensures BehindOnly(AfterUses(es, capacity, uses), k, used) && Distinct(AfterUses(es, capacity, uses))
    decreases |uses|
  {
    if uses != [] {
      UseKeepsBehind(es, capacity, k, used, uses[0]);
      RunKeepsBehind(AfterUse(es, capacity, uses[0]), capacity, k, used, uses[1..]);
    }
  }

  /** An entry that was just looked up or added stays while fewer other keys are used than the table holds, however
      often: evictions go by least recent use. */
  lemma {:induction false} RecentlyUsedStays<K(!new), V>(es: Entries<K, V>, capacity: nat, use: Use<K, V>,
      used: set<K>, uses: seq<Use<K, V>>)
    requires Distinct(es) && WithinCapacity(es, capacity) && (capacity != 0 ==> |used| < capacity)
    requires use.Got? ==> Lookup(es, use.key).Some?
    requires forall i :: 0 <= i < |uses| ==> uses[i].key in used || uses[i].key == use.key
    ensures Lookup(AfterUses(AfterUse(es, capacity, use), capacity, uses), use.key).Some?
  {
    var k, v := use.key, if use.Got? then Lookup(es, use.key).value else use.value;
    PushFacts(es, k, v);
    PushPutsFirst(es, k, {}, v);
    var first := AfterUse(es, capacity, use);
    if use.Added? { FitFacts(Push(es, k, v), capacity); }
    assert first[0].0 == k;
    assert BehindOnly(first, k, used);
    RunKeepsBehind(first, capacity, k, used, uses);
    var last := AfterUses(first, capacity, uses);
    var i :| 0 <= i < |last| && last[i].0 == k;
    LookupAt(last, i);
  }

  class Cache<K(==,!new), V> {
    const capacity: nat
    var entries: Entries<K, V>

    ghost predicate Valid()
      reads this
    {
      Distinct(entries) && WithinCapacity(entries, capacity)
    }

    constructor (capacity: nat)
      ensures Valid() && entries == [] && this.capacity == capacity
    {
      this.capacity := capacity;
      entries := [];
    }

    method Get(k: K) returns (r: Option<V>)
      requires Valid()
      modifies this
      ensures Valid()
      ensures r == Lookup(old(entries), k) && entries == Touch(old(entries), k)
      ensures forall j :: Lookup(entries, j) == Lookup(old(entries), j)
    {
      TouchFacts(entries, k);
      r := Lookup(entries, k);
      entries := Touch(entries, k);
    }

    /** The newest entry is never the one evicted, and overwriting evicts nothing. */
    method Add(k: K, v: V) returns (evicted: Option<(K, V)>)
      requires Valid()
      modifies this
      ensures Valid()
      ensures entries == Fit(Push(old(entries), k, v), capacity)
      ensures evicted == Overflow(Push(old(entries), k, v), capacity)
      ensures Lookup(old(entries), k).Some? ==> evicted.None?
      ensures Lookup(entries, k) == Some(v)
      ensures forall j :: j != k && (evicted.None? || j != evicted.value.0) ==> Lookup(entries, j) == Lookup(old(entries), j)
    {
      PushFacts(entries, k, v);
      var es := Push(entries, k, v);
      FitFacts(es, capacity);
      entries := Fit(es, capacity);
      evicted := Overflow(es, capacity);
    }

    /** Every entry is evicted. */
    method Clear() returns (evicted: Entries<K, V>)
      modifies this
      ensures Valid() && entries == [] && evicted == old(entries)
    {
      evicted := entries;
      entries := [];
    }
  }
}
