/** The cache of contexts and sessions when Clear comes in the middle of a call. GetSession holds a lock and Clear does
    not, so either half of Clear may run after a call has got its context and before it gets its session. */
module UnlockedClear {
  import opened Results
  import opened ConfigHash
  import opened ContextCache
  import Atomic = ContextCache
  import Lru

  /** `pending` is a call between its two halves: the key it is going to use, and the context it has got. */
  datatype System = System(cache: CacheState, pending: Option<(SessionKey, Context)>)

  datatype Step =
    | Begin(call: Call)          // up to the context; the lock keeps other calls out until End
    | End
    | Outside(op: Op)            // a session closed, or one half of Clear

  predicate IsOutside(op: Op) { !op.GetSession? }

  function Apply(s: System, caps: Capacities, step: Step): System {
    match step
    case Begin(call) =>
      if s.pending.Some? || call.hash.None? then s else
        var (s1, c) := ContextSpec(s.cache, caps, call.hash.value, call.applies);
        System(s1, if c.Some? && call.verifies then Some((SessionKey(call.hash.value, call.repoHash), c.value)) else None)
    case End =>
      if s.pending.None? then s
      else System(SessionSpec(s.cache, caps, s.pending.value.0, s.pending.value.1).0, None)
    case Outside(op) => if IsOutside(op) then s.(cache := Atomic.Apply(s.cache, caps, op)) else s
  }

  function Run(s: System, caps: Capacities, steps: seq<Step>): System
    decreases |steps|
  {
    if steps == [] then s else Run(Apply(s, caps, steps[0]), caps, steps[1..])
  }

  /** Left alone, the two halves are the whole call. */
  lemma HalvesMakeACall(s: CacheState, caps: Capacities, call: Call)
    ensures Apply(Apply(System(s, None), caps, Begin(call)), caps, End).cache == GetSessionSpec(s, caps, call).0
  {}

  // ---------------------------------------------------------------------------------------------------
  // What survives
  // ---------------------------------------------------------------------------------------------------

  /** Every open session is owned by a context made for the hash in its key. */
  ghost predicate OwnerHasHash(s: CacheState) {
    forall i :: i in s.w.open ==>
      && i in s.w.keyOf && i in s.w.owner && s.w.owner[i] in s.w.hashOf
      && s.w.hashOf[s.w.owner[i]] == s.w.keyOf[i].ctxHash
  }

  /** The invariant of the cache, with ownership by a context that may have been finalized. */
  ghost predicate Kept(s: System, caps: Capacities) {
    && Tables(s.cache, caps) && Recorded(s.cache) && FinalizedOnLeaving(s.cache) && NoLeaks(s.cache)
    && OwnerHasHash(s.cache)
    && (s.pending.Some? ==>
          var (key, c) := s.pending.value; c in s.cache.w.hashOf && s.cache.w.hashOf[c] == key.ctxHash)
  }

  lemma {:induction false} NewContextKeeps(s: CacheState, caps: Capacities, hash: string)
    requires Kept(System(s, None), caps) && Lru.Lookup(s.contexts, hash).None?
    ensures var (s', c) := ContextSpec(s, caps, hash, true);
      Kept(System(s', None), caps) && c == Some(s.w.contextsMade) && c.value in s'.w.hashOf && s'.w.hashOf[c.value] == hash
  {
    Lru.AddFacts(s.contexts, caps.contexts, hash, s.w.contextsMade);
  }

  lemma BeginKeeps(s: System, caps: Capacities, call: Call)
    requires Kept(s, caps)
    ensures Kept(Apply(s, caps, Begin(call)), caps)
  {
    if s.pending.None? && call.hash.Some? {
      var hash := call.hash.value;
      if Lru.Lookup(s.cache.contexts, hash).Some? {
        Lru.TouchFacts(s.cache.contexts, hash);
      } else if call.applies {
        NewContextKeeps(s.cache, caps, hash);
      }
    }
  }

  lemma EndKeeps(s: System, caps: Capacities)
    requires Kept(s, caps)
    ensures Kept(Apply(s, caps, End), caps)
    ensures s.pending.Some? ==>
      var (s', i) := SessionSpec(s.cache, caps, s.pending.value.0, s.pending.value.1);
      i in s'.w.open && Lru.Lookup(s'.sessions, s.pending.value.0) == Some(i)
  {
    if s.pending.Some? {
      var key := s.pending.value.0;
      Lru.TouchFacts(s.cache.sessions, key);
      var cached := Lru.Lookup(s.cache.sessions, key);
      if cached.None? || cached.value !in s.cache.w.open {
        Lru.AddFacts(Lru.Touch(s.cache.sessions, key), caps.sessions, key, s.cache.w.sessionsMade);
      }
    }
  }

  lemma ClearSessionsKeeps(s: System, caps: Capacities)
    requires Kept(s, caps)
    ensures Kept(Apply(s, caps, Outside(ClearSessions)), caps)
    ensures Apply(s, caps, Outside(ClearSessions)).cache.w.open == {}
  {
    var w := CloseAll(s.cache.w, s.cache.sessions);
    CloseAllCloses(s.cache.w, s.cache.sessions);
    forall i | i in s.cache.w.open ensures i !in w.open {
      var j := LookupIsEntry(s.cache.sessions, s.cache.w.keyOf[i]);
    }
    assert w.open == {};
  }

  lemma ClearContextsKeeps(s: System, caps: Capacities)
    requires Kept(s, caps)
    ensures Kept(Apply(s, caps, Outside(ClearContexts)), caps)
    ensures forall i :: i in Apply(s, caps, Outside(ClearContexts)).cache.w.open ==>
      i in s.cache.w.open && i in s.cache.w.owner && s.cache.w.owner[i] in s.cache.w.finalized
  {
    var es, w := s.cache.contexts, s.cache.w;
    var w' := FinalizeAll(w, es);
    FinalizeAllFinalizes(w, es);
    forall c | c in w.hashOf ensures c in w'.finalized {
      if c !in w.finalized {
        var j := LookupIsEntry(es, w.hashOf[c]);
        assert es[j].1 == c;
      }
    }
    forall c | c in w'.finalized ensures c in w.hashOf {
      if c !in w.finalized {
        var j :| 0 <= j < |es| && es[j].1 == c;
        Lru.LookupAt(es, j);
      }
    }
    forall i | i in w.open && w.owner[i] !in w.finalized ensures i !in w'.open {
      var j := LookupIsEntry(es, w.hashOf[w.owner[i]]);
      assert es[j].1 == w.owner[i];
    }
  }

  lemma StepKeeps(s: System, caps: Capacities, step: Step)
    requires Kept(s, caps)
    ensures Kept(Apply(s, caps, step), caps)
  {
    match step
    case Begin(call) => BeginKeeps(s, caps, call);
    case End => EndKeeps(s, caps);
    case Outside(op) =>
      match op {
        case ClearSessions => ClearSessionsKeeps(s, caps);
        case ClearContexts => ClearContextsKeeps(s, caps);
        case _ =>
      }
  }

  /** Wherever Clear comes: both tables stay in order, contexts are finalized exactly when they leave, no session leaks,
      and every open session is owned by a context made for its configuration. */
  lemma {:induction false} RunKeeps(s: System, caps: Capacities, steps: seq<Step>)
    requires Kept(s, caps)
    ensures Kept(Run(s, caps, steps), caps)
    decreases |steps|
  {
    if steps != [] {
      StepKeeps(s, caps, steps[0]);
      RunKeeps(Apply(s, caps, steps[0]), caps, steps[1..]);
    }
  }

  // ---------------------------------------------------------------------------------------------------
  // What does not: ownership by the context now cached
  // ---------------------------------------------------------------------------------------------------

  /** Ownership by the cached context is exactly what is lost, and exactly for sessions of finalized contexts. */
  lemma OwnedIff(s: System, caps: Capacities)
    requires Kept(s, caps)
    ensures Owned(s.cache) <==> forall i :: i in s.cache.w.open ==> s.cache.w.owner[i] !in s.cache.w.finalized
    ensures Owned(s.cache) <==> Inv(s.cache, caps)
  {}

  /** The pending call still has the cached context. */
  ghost predicate Current(s: System) {
    s.pending.Some? ==> Lru.Lookup(s.cache.contexts, s.pending.value.0.ctxHash) == Some(s.pending.value.1)
  }

  /** No step of the run clears the contexts in the middle of a call. */
  ghost predicate NeverInBetween(s: System, caps: Capacities, steps: seq<Step>)
    decreases |steps|
  {
    steps == [] ||
    (!(s.pending.Some? && steps[0] == Outside(ClearContexts)) && NeverInBetween(Apply(s, caps, steps[0]), caps, steps[1..]))
  }

  lemma StepKeepsOwned(s: System, caps: Capacities, step: Step)
    requires Inv(s.cache, caps) && Current(s) && !(s.pending.Some? && step == Outside(ClearContexts))
    ensures Inv(Apply(s, caps, step).cache, caps) && Current(Apply(s, caps, step))
  {
    match step
    case Begin(call) =>
      if s.pending.None? && call.hash.Some? { ContextStepPreserves(s.cache, caps, call.hash.value, call.applies); }
    case End =>
      if s.pending.Some? { SessionStepPreserves(s.cache, caps, s.pending.value.0, s.pending.value.1); }
    case Outside(op) =>
      if IsOutside(op) { StepPreserves(s.cache, caps, op); }
  }

  /** Unless the contexts are cleared in the middle of a call, the whole invariant is kept. */
  lemma {:induction false} OwnedUnlessInBetween(s: System, caps: Capacities, steps: seq<Step>)
    requires Inv(s.cache, caps) && Current(s) && NeverInBetween(s, caps, steps)
    ensures Inv(Run(s, caps, steps).cache, caps)
    decreases |steps|
  {
    if steps != [] {
      StepKeepsOwned(s, caps, steps[0]);
      OwnedUnlessInBetween(Apply(s, caps, steps[0]), caps, steps[1..]);
    }
  }

  /** If they are, and the call then ends, it always returns an open session of a finalized context. The next call for
      the same key makes a new context and returns that session with it. */
  lemma ClearInBetweenBreaks(s: System, caps: Capacities, call: Call)
    requires Inv(s.cache, caps) && Current(s) && s.pending.Some?
    requires var key := s.pending.value.0;
      call.hash == Some(key.ctxHash) && call.repoHash == key.repoHash && call.applies && call.verifies
    ensures var s' := Apply(Apply(s, caps, Outside(ClearContexts)), caps, End);
      var i := s.cache.w.sessionsMade;
      var (_, r) := GetSessionSpec(s'.cache, caps, call);
      && i in s'.cache.w.open && i in s'.cache.w.owner && s'.cache.w.owner[i] == s.pending.value.1
      && s.pending.value.1 in s'.cache.w.finalized
      && !Owned(s'.cache)
      && r.Some? && r.value.1 == i && r.value.0 != s'.cache.w.owner[i]
  {
    var (key, c) := s.pending.value;
    assert Kept(s, caps);
    var s1 := Apply(s, caps, Outside(ClearContexts));
    ClearContextsPreserves(s.cache, caps);
    ClearContextsKeeps(s, caps);
    assert s1.cache.w.open == {} && s1.cache.contexts == [] && c in s1.cache.w.finalized;
    EndKeeps(s1, caps);
    var s2 := Apply(s1, caps, End);
    var i := s.cache.w.sessionsMade;
    assert s1.cache.w.sessionsMade == i by { FinalizeAllFinalizes(s.cache.w, s.cache.contexts); }
    assert s2.cache.contexts == [] && i in s2.cache.w.open && Lru.Lookup(s2.cache.sessions, key) == Some(i);
    OwnedIff(s2, caps);
    var (s3, d) := ContextSpec(s2.cache, caps, key.ctxHash, true);
    assert d == Some(s2.cache.w.contextsMade) && s3.sessions == s2.cache.sessions;
    NewContextKeepsOpen(s2.cache, caps, key.ctxHash, i);
  }

  lemma NewContextKeepsOpen(s: CacheState, caps: Capacities, hash: string, i: Session)
    requires s.contexts == [] && i in s.w.open
    ensures i in ContextSpec(s, caps, hash, true).0.w.open
  {
    assert Lru.Push(s.contexts, hash, s.w.contextsMade) == [(hash, s.w.contextsMade)];
  }
}
