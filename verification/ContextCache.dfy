/** The cache of OCM contexts and sessions: two LRU tables coupled by ownership.

    Contexts and sessions are library objects and appear as identities. A session is registered with a context
    when it is made; finalizing the context closes it. Sessions may also be closed from outside. */
module ContextCache {
  import opened Results
  import opened Bytes
  import opened ConfigHash
  import Bags
  import EffectiveConfig
  import Lru

  type Context = nat
  type Session = nat

  /** The library side: who owns which session, which sessions are open, which contexts have been finalized.
      `hashOf` and `keyOf` record under which key an object was put into its table. */
  datatype World = World(
    contextsMade: nat, hashOf: map<Context, string>, finalized: set<Context>,
    sessionsMade: nat, keyOf: map<Session, SessionKey>, owner: map<Session, Context>, open: set<Session>)

  datatype CacheState = CacheState(contexts: Lru.Entries<string, Context>, sessions: Lru.Entries<SessionKey, Session>, w: World)

  datatype Capacities = Capacities(contexts: nat, sessions: nat)

  const EmptyWorld := World(0, map[], {}, 0, map[], map[], {})
  const Empty := CacheState([], [], EmptyWorld)

  /** What one call of GetSession finds out on its way: the hash of the configuration objects if they could be
      fetched, whether a new context accepts them, whether verifications can be registered. */
  datatype Call = Call(hash: Option<string>, applies: bool, verifies: bool, repoHash: string)

  datatype Op =
    | GetSession(call: Call)
    | CloseOutside(session: Session)
    | ClearSessions
    | ClearContexts

  // ---------------------------------------------------------------------------------------------------
  // Specification
  // ---------------------------------------------------------------------------------------------------

  function Close(w: World, i: Session): World { w.(open := w.open - {i}) }

  function Finalize(w: World, c: Context): World {
    w.(open := (set i | i in w.open && !(i in w.owner && w.owner[i] == c)), finalized := w.finalized + {c})
  }

  function FinalizeEvicted(w: World, evicted: Option<(string, Context)>): World {
    if evicted.Some? then Finalize(w, evicted.value.1) else w
  }

  function CloseEvicted(w: World, evicted: Option<(SessionKey, Session)>): World {
    if evicted.Some? then Close(w, evicted.value.1) else w
  }

  function ContextSpec(s: CacheState, caps: Capacities, hash: string, applies: bool): (CacheState, Option<Context>) {
    match Lru.Lookup(s.contexts, hash)
    case Some(c) => (s.(contexts := Lru.Touch(s.contexts, hash)), Some(c))
    case None =>
      var c := s.w.contextsMade;
      var w := s.w.(contextsMade := c + 1);
      if !applies then (s.(w := w), None) else
        var pushed := Lru.Push(s.contexts, hash, c);
        (CacheState(Lru.Fit(pushed, caps.contexts), s.sessions,
               FinalizeEvicted(w.(hashOf := w.hashOf[c := hash]), Lru.Overflow(pushed, caps.contexts))),
         Some(c))
  }

  /** A new session, registered with its owner. */
  function MakeSession(w: World, key: SessionKey, c: Context): World {
    var i := w.sessionsMade;
    w.(sessionsMade := i + 1, keyOf := w.keyOf[i := key], owner := w.owner[i := c], open := w.open + {i})
  }

  function SessionSpec(s: CacheState, caps: Capacities, key: SessionKey, c: Context): (CacheState, Session) {
    var touched := Lru.Touch(s.sessions, key);
    var cached := Lru.Lookup(s.sessions, key);
    if cached.Some? && cached.value in s.w.open then (s.(sessions := touched), cached.value)
    else
      var i := s.w.sessionsMade;
      var pushed := Lru.Push(touched, key, i);
      (CacheState(s.contexts, Lru.Fit(pushed, caps.sessions),
             CloseEvicted(MakeSession(s.w, key, c), Lru.Overflow(pushed, caps.sessions))), i)
  }

  function GetSessionSpec(s: CacheState, caps: Capacities, call: Call): (CacheState, Option<(Context, Session)>) {
    if call.hash.None? then (s, None) else
      var (s1, c) := ContextSpec(s, caps, call.hash.value, call.applies);
      if c.None? || !call.verifies then (s1, None) else
        var (s2, i) := SessionSpec(s1, caps, SessionKey(call.hash.value, call.repoHash), c.value);
        (s2, Some((c.value, i)))
  }

  function CloseAll(w: World, es: Lru.Entries<SessionKey, Session>): World
    decreases |es|
  {
    if es == [] then w else CloseAll(Close(w, es[0].1), es[1..])
  }

  function FinalizeAll(w: World, es: Lru.Entries<string, Context>): World
    decreases |es|
  {
    if es == [] then w else FinalizeAll(Finalize(w, es[0].1), es[1..])
  }

  function Apply(s: CacheState, caps: Capacities, op: Op): CacheState {
    match op
    case GetSession(call) => GetSessionSpec(s, caps, call).0
    case CloseOutside(i) => s.(w := Close(s.w, i))
    case ClearSessions => s.(sessions := [], w := CloseAll(s.w, s.sessions))
    case ClearContexts => s.(contexts := [], w := FinalizeAll(s.w, s.contexts))
  }

  function Run(s: CacheState, caps: Capacities, ops: seq<Op>): CacheState
    decreases |ops|
  {
    if ops == [] then s else Run(Apply(s, caps, ops[0]), caps, ops[1..])
  }

  // ---------------------------------------------------------------------------------------------------
  // The invariant over both tables
  // ---------------------------------------------------------------------------------------------------

  ghost predicate Tables(s: CacheState, caps: Capacities) {
    && Lru.Distinct(s.contexts) && Lru.WithinCapacity(s.contexts, caps.contexts)
    && Lru.Distinct(s.sessions) && Lru.WithinCapacity(s.sessions, caps.sessions)
  }

  ghost predicate Recorded(s: CacheState) {
    && (forall c :: c in s.w.hashOf ==> c < s.w.contextsMade)
    && (forall c :: c in s.w.finalized ==> c in s.w.hashOf)
    && (forall i :: i in s.w.open ==> i < s.w.sessionsMade && i in s.w.keyOf && i in s.w.owner)
    && (forall h :: Lru.Lookup(s.contexts, h).Some? ==>
          var c := Lru.Lookup(s.contexts, h).value; c in s.w.hashOf && s.w.hashOf[c] == h)
    && (forall k :: Lru.Lookup(s.sessions, k).Some? ==>
          var i := Lru.Lookup(s.sessions, k).value; i < s.w.sessionsMade && i in s.w.keyOf && s.w.keyOf[i] == k)
  }

  /** A context is finalized exactly when it has left its table. */
  ghost predicate FinalizedOnLeaving(s: CacheState) {
    forall c :: c in s.w.hashOf ==> (c in s.w.finalized <==> Lru.Lookup(s.contexts, s.w.hashOf[c]) != Some(c))
  }

  /** An open session is in the session table under its own key. */
  ghost predicate NoLeaks(s: CacheState) {
    forall i :: i in s.w.open ==> i in s.w.keyOf && Lru.Lookup(s.sessions, s.w.keyOf[i]) == Some(i)
  }

  /** An open session is owned by the context cached under the hash in its key. */
  ghost predicate Owned(s: CacheState) {
    forall i :: i in s.w.open ==>
      i in s.w.keyOf && i in s.w.owner && Lru.Lookup(s.contexts, s.w.keyOf[i].ctxHash) == Some(s.w.owner[i])
  }

  ghost predicate Inv(s: CacheState, caps: Capacities) {
    Tables(s, caps) && Recorded(s) && FinalizedOnLeaving(s) && NoLeaks(s) && Owned(s)
  }

  lemma {:induction false} ContextStepPreserves(s: CacheState, caps: Capacities, hash: string, applies: bool)
    requires Inv(s, caps)
    ensures var (s', c) := ContextSpec(s, caps, hash, applies);
      Inv(s', caps) && (c.Some? ==> Lru.Lookup(s'.contexts, hash) == c)
  {
    if Lru.Lookup(s.contexts, hash).Some? {
      Lru.TouchFacts(s.contexts, hash);
    } else if applies {
      Lru.AddFacts(s.contexts, caps.contexts, hash, s.w.contextsMade);
    }
  }

  lemma {:induction false} MakeSessionPreserves(s: CacheState, caps: Capacities, key: SessionKey, c: Context)
    requires Inv(s, caps) && Lru.Lookup(s.contexts, key.ctxHash) == Some(c)
    requires Lru.Lookup(s.sessions, key).Some? ==> Lru.Lookup(s.sessions, key).value !in s.w.open
    ensures var (s', i) := SessionSpec(s, caps, key, c);
      && Inv(s', caps) && s'.contexts == s.contexts
      && i in s'.w.open && s'.w.owner[i] == c && s'.w.keyOf[i] == key && Lru.Lookup(s'.sessions, key) == Some(i)
  {
    Lru.TouchFacts(s.sessions, key);
    Lru.AddFacts(Lru.Touch(s.sessions, key), caps.sessions, key, s.w.sessionsMade);
  }

  lemma {:induction false} SessionStepPreserves(s: CacheState, caps: Capacities, key: SessionKey, c: Context)
    requires Inv(s, caps) && Lru.Lookup(s.contexts, key.ctxHash) == Some(c)
    ensures var (s', i) := SessionSpec(s, caps, key, c);
      && Inv(s', caps) && s'.contexts == s.contexts
      && i in s'.w.open && s'.w.owner[i] == c && s'.w.keyOf[i] == key && Lru.Lookup(s'.sessions, key) == Some(i)
  {
    var cached := Lru.Lookup(s.sessions, key);
    if cached.None? || cached.value !in s.w.open {
      MakeSessionPreserves(s, caps, key, c);
    } else {
      Lru.TouchFacts(s.sessions, key);
    }
  }

  lemma GetSessionPreserves(s: CacheState, caps: Capacities, call: Call)
    requires Inv(s, caps)
    ensures var (s', r) := GetSessionSpec(s, caps, call);
      && Inv(s', caps)
      && (r.Some? ==> var (c, i) := r.value;
            && Lru.Lookup(s'.contexts, call.hash.value) == Some(c) && c !in s'.w.finalized
            && Lru.Lookup(s'.sessions, SessionKey(call.hash.value, call.repoHash)) == Some(i)
            && i in s'.w.open && s'.w.owner[i] == c && s'.w.keyOf[i] == SessionKey(call.hash.value, call.repoHash))
  {
    if call.hash.Some? {
      ContextStepPreserves(s, caps, call.hash.value, call.applies);
      var (s1, c) := ContextSpec(s, caps, call.hash.value, call.applies);
      if c.Some? && call.verifies {
        SessionStepPreserves(s1, caps, SessionKey(call.hash.value, call.repoHash), c.value);
      }
    }
  }

  lemma {:induction false} CloseAllCloses(w: World, es: Lru.Entries<SessionKey, Session>)
    ensures var w' := CloseAll(w, es);
      && w' == w.(open := w'.open) && w'.open <= w.open
      && forall j :: 0 <= j < |es| ==> es[j].1 !in w'.open
    decreases |es|
  {
    if es != [] {
      CloseAllCloses(Close(w, es[0].1), es[1..]);
    }
  }

  lemma {:induction false} FinalizeAllFinalizes(w: World, es: Lru.Entries<string, Context>)
    ensures var w' := FinalizeAll(w, es);
      && w' == w.(open := w'.open, finalized := w'.finalized) && w'.open <= w.open && w.finalized <= w'.finalized
      && (forall c :: c in w'.finalized && c !in w.finalized ==> exists j :: 0 <= j < |es| && es[j].1 == c)
      && forall j :: 0 <= j < |es| ==>
           es[j].1 in w'.finalized && forall i :: i in w'.open && i in w.owner ==> w.owner[i] != es[j].1
    decreases |es|
  {
    if es != [] {
      var w1 := Finalize(w, es[0].1);
      FinalizeAllFinalizes(w1, es[1..]);
      var w' := FinalizeAll(w, es);
      forall c | c in w'.finalized && c !in w.finalized ensures exists j :: 0 <= j < |es| && es[j].1 == c {
        if c != es[0].1 {
          var j :| 0 <= j < |es[1..]| && es[1..][j].1 == c;
          assert es[j + 1].1 == c;
        }
      }
    }
  }

  lemma {:induction false} LookupIsEntry<K, V>(es: Lru.Entries<K, V>, k: K) returns (j: nat)
    requires Lru.Lookup(es, k).Some?
    ensures j < |es| && es[j] == (k, Lru.Lookup(es, k).value)
  {
    if es[0].0 == k {
      j := 0;
    } else {
      j := LookupIsEntry(es[1..], k);
      j := j + 1;
    }
  }

  lemma ClearSessionsPreserves(s: CacheState, caps: Capacities)
    requires Inv(s, caps)
    ensures Inv(Apply(s, caps, ClearSessions), caps) && Apply(s, caps, ClearSessions).w.open == {}
  {
    var s' := Apply(s, caps, ClearSessions);
    CloseAllCloses(s.w, s.sessions);
    forall i | i in s.w.open ensures i !in s'.w.open {
      var j := LookupIsEntry(s.sessions, s.w.keyOf[i]);
      assert s.sessions[j].1 == i;
    }
  }

  lemma ClearContextsPreserves(s: CacheState, caps: Capacities)
    requires Inv(s, caps)
    ensures Inv(Apply(s, caps, ClearContexts), caps) && Apply(s, caps, ClearContexts).w.open == {}
  {
    var s' := Apply(s, caps, ClearContexts);
    FinalizeAllFinalizes(s.w, s.contexts);
    forall i | i in s.w.open ensures i !in s'.w.open {
      var j := LookupIsEntry(s.contexts, s.w.keyOf[i].ctxHash);
      assert s.contexts[j].1 == s.w.owner[i];
    }
    forall c | c in s.w.hashOf ensures c in s'.w.finalized {
      if c !in s.w.finalized {
        var j := LookupIsEntry(s.contexts, s.w.hashOf[c]);
        assert s.contexts[j].1 == c;
      }
    }
    forall c | c in s'.w.finalized && c !in s.w.finalized ensures c in s.w.hashOf {
      var j :| 0 <= j < |s.contexts| && s.contexts[j].1 == c;
      Lru.LookupAt(s.contexts, j);
    }
  }

  lemma StepPreserves(s: CacheState, caps: Capacities, op: Op)
    requires Inv(s, caps)
    ensures Inv(Apply(s, caps, op), caps)
  {
    match op
    case GetSession(call) => GetSessionPreserves(s, caps, call);
    case CloseOutside(i) =>
    case ClearSessions => ClearSessionsPreserves(s, caps);
    case ClearContexts => ClearContextsPreserves(s, caps);
  }

  lemma {:induction false} RunPreserves(s: CacheState, caps: Capacities, ops: seq<Op>)
    requires Inv(s, caps)
    ensures Inv(Run(s, caps, ops), caps)
    decreases |ops|
  {
    if ops != [] {
      StepPreserves(s, caps, ops[0]);
      RunPreserves(Apply(s, caps, ops[0]), caps, ops[1..]);
    }
  }

  // ---------------------------------------------------------------------------------------------------
  // Main results, over every sequence of calls, outside closes and clears from an empty cache
  // ---------------------------------------------------------------------------------------------------

  /** Every open session in the table is owned by the context now cached under the hash in its key. */
  lemma {:induction false} CachedSessionsOwned(caps: Capacities, ops: seq<Op>, key: SessionKey)
    ensures var s := Run(Empty, caps, ops);
      var i := Lru.Lookup(s.sessions, key);
      i.Some? && i.value in s.w.open ==>
        i.value in s.w.owner && Lru.Lookup(s.contexts, key.ctxHash) == Some(s.w.owner[i.value])
  {
    RunPreserves(Empty, caps, ops);
  }

  /** A successful call returns an open session owned by the context it returns, and both are cached. */
  lemma {:induction false} GetSessionReturnsOwned(caps: Capacities, ops: seq<Op>, call: Call)
    ensures var (s, r) := GetSessionSpec(Run(Empty, caps, ops), caps, call);
      r.Some? ==> var (c, i) := r.value;
        && i in s.w.open && i in s.w.owner && s.w.owner[i] == c && c !in s.w.finalized
        && Lru.Lookup(s.contexts, call.hash.value) == Some(c)
        && Lru.Lookup(s.sessions, SessionKey(call.hash.value, call.repoHash)) == Some(i)
  {
    RunPreserves(Empty, caps, ops);
    GetSessionPreserves(Run(Empty, caps, ops), caps, call);
  }

  /** No session leaks: what is open is cached, and never more than the capacity. A context is finalized exactly
      when it is no longer cached. */
  lemma {:induction false} NothingLeaks(caps: Capacities, ops: seq<Op>)
    ensures var s := Run(Empty, caps, ops);
      && NoLeaks(s) && FinalizedOnLeaving(s)
      && (caps.sessions != 0 ==> |s.w.open| <= caps.sessions)
  {
    RunPreserves(Empty, caps, ops);
    var s := Run(Empty, caps, ops);
    forall i | i in s.w.open ensures i in Values(s.sessions) {
      var j := LookupIsEntry(s.sessions, s.w.keyOf[i]);
      assert s.sessions[j].1 == i;
    }
    FewValues(s.sessions);
    Bags.SubsetSize(s.w.open, Values(s.sessions));
  }

  ghost function Values(es: Lru.Entries<SessionKey, Session>): set<Session> {
    set j | 0 <= j < |es| :: es[j].1
  }

  lemma {:induction false} FewValues(es: Lru.Entries<SessionKey, Session>)
    ensures |Values(es)| <= |es|
  {
    if es != [] {
      var n := |es| - 1;
      FewValues(es[..n]);
      assert Values(es) == Values(es[..n]) + {es[n].1} by {
        forall v | v in Values(es) ensures v in Values(es[..n]) + {es[n].1} {
          var j :| 0 <= j < |es| && es[j].1 == v;
          if j < n { assert es[..n][j].1 == v; }
        }
        forall v | v in Values(es[..n]) ensures v in Values(es) {
          var j :| 0 <= j < n && es[..n][j].1 == v;
          assert es[j].1 == v;
        }
      }
    }
  }

  /** Clearing either table closes every session: those cached, or those owned by a cached context. */
  lemma {:induction false} ClearClosesAll(caps: Capacities, ops: seq<Op>)
    ensures Run(Empty, caps, ops + [ClearSessions]).w.open == {}
    ensures Run(Empty, caps, ops + [ClearContexts]).w.open == {}
  {
    RunPreserves(Empty, caps, ops);
    RunSnoc(Empty, caps, ops, ClearSessions);
    RunSnoc(Empty, caps, ops, ClearContexts);
    ClearSessionsPreserves(Run(Empty, caps, ops), caps);
    ClearContextsPreserves(Run(Empty, caps, ops), caps);
  }

  lemma {:induction false} RunSnoc(s: CacheState, caps: Capacities, ops: seq<Op>, op: Op)
    ensures Run(s, caps, ops + [op]) == Apply(Run(s, caps, ops), caps, op)
    decreases |ops|
  {
    if ops == [] {
      assert ops + [op] == [op] && [op][1..] == [];
    } else {
      assert (ops + [op])[1..] == ops[1..] + [op];
      RunSnoc(Apply(s, caps, ops[0]), caps, ops[1..], op);
    }
  }

  // ---------------------------------------------------------------------------------------------------
  // The cache as an object
  // ---------------------------------------------------------------------------------------------------

  datatype ObjectName = ObjectName(namespace: string, name: string)

  /** The outside world as one call sees it: the configuration objects that can be fetched, those that a context
      accepts, and whether verification keys can be had. */
  datatype Cluster = Cluster(secrets: map<ObjectName, Data>, configMaps: map<ObjectName, (Data, Data)>,
                             accepts: ConfigObject -> bool, verifies: bool)

  datatype Options = Options(repositorySpec: Option<ByteString>, configs: seq<EffectiveConfig.Config>)

  function Fetch(c: EffectiveConfig.Config, cluster: Cluster): Option<ConfigObject> {
    var name := ObjectName(c.namespace, c.name);
    if c.kind == "Secret" && name in cluster.secrets then Some(Secret(cluster.secrets[name]))
    else if c.kind == "ConfigMap" && name in cluster.configMaps then
      Some(ConfigMap(cluster.configMaps[name].0, cluster.configMaps[name].1))
    else None
  }

  function NameOf(c: EffectiveConfig.Config): ObjectName { ObjectName(c.namespace, c.name) }

  predicate AllFetched(cs: seq<EffectiveConfig.Config>, cluster: Cluster) {
    forall c :: c in cs ==> Fetch(c, cluster).Some?
  }

  function Fetched(cs: seq<EffectiveConfig.Config>, cluster: Cluster): (r: seq<ConfigObject>)
    requires AllFetched(cs, cluster)
    ensures Supported(r)
  {
    seq(|cs|, i requires 0 <= i < |cs| => Fetch(cs[i], cluster).value)
  }

  predicate AllAccepted(objects: seq<ConfigObject>, accepts: ConfigObject -> bool) {
    forall o :: o in objects ==> accepts(o)
  }

  ghost function CallOf(opts: Option<Options>, cluster: Cluster, H: HashFunction): Call {
    if opts.None? || !AllFetched(opts.value.configs, cluster) then Call(None, false, false, "")
    else
      var objects := Fetched(opts.value.configs, cluster);
      Call(Some(DataHash(objects, H)), AllAccepted(objects, cluster.accepts), cluster.verifies,
           RepoHash(opts.value.repositorySpec, H))
  }

  lemma FetchMeans(c: EffectiveConfig.Config, cluster: Cluster)
    ensures Fetch(c, cluster).Some? <==>
      (c.kind == "Secret" && NameOf(c) in cluster.secrets) || (c.kind == "ConfigMap" && NameOf(c) in cluster.configMaps)
    ensures c.kind == "Secret" && NameOf(c) in cluster.secrets ==>
      Fetch(c, cluster) == Some(Secret(cluster.secrets[NameOf(c)]))
    ensures c.kind == "ConfigMap" && NameOf(c) in cluster.configMaps ==>
      Fetch(c, cluster) == Some(ConfigMap(cluster.configMaps[NameOf(c)].0, cluster.configMaps[NameOf(c)].1))
  {}

  /** Configuration objects listed in another order lead to the same context and session. */
  lemma OrderDoesNotMatter(a: Options, b: Options, cluster: Cluster, H: HashFunction)
    requires AllFetched(a.configs, cluster) && AllFetched(b.configs, cluster)
    requires multiset(Fetched(a.configs, cluster)) == multiset(Fetched(b.configs, cluster))
    requires a.repositorySpec == b.repositorySpec
    ensures CallOf(Some(a), cluster, H) == CallOf(Some(b), cluster, H)
  {
    var oa, ob := Fetched(a.configs, cluster), Fetched(b.configs, cluster);
    HashIgnoresOrder(oa, ob, H);
    assert forall o :: o in oa <==> o in multiset(ob);
  }

  /** The session was made under this key and for this context. */
  ghost predicate MadeFor(w: World, i: Session, key: SessionKey, c: Context) {
    i < w.sessionsMade && i in w.keyOf && w.keyOf[i] == key && i in w.owner && w.owner[i] == c
  }

  lemma GetSessionKeepsMaker(s: CacheState, caps: Capacities, call: Call, i: Session, key: SessionKey, c: Context)
    requires MadeFor(s.w, i, key, c)
    ensures MadeFor(GetSessionSpec(s, caps, call).0.w, i, key, c)
    ensures i !in s.w.open ==> i !in GetSessionSpec(s, caps, call).0.w.open
  {
    if call.hash.Some? {
      var (s1, d) := ContextSpec(s, caps, call.hash.value, call.applies);
      assert MadeFor(s1.w, i, key, c) && s1.w.open <= s.w.open;
      if d.Some? && call.verifies {
        var (s2, j) := SessionSpec(s1, caps, SessionKey(call.hash.value, call.repoHash), d.value);
        assert MadeFor(s2.w, i, key, c);
      }
    }
  }

  lemma {:induction false} RunKeepsMaker(s: CacheState, caps: Capacities, ops: seq<Op>, i: Session,
                                         key: SessionKey, c: Context)
    requires MadeFor(s.w, i, key, c)
    ensures MadeFor(Run(s, caps, ops).w, i, key, c)
    decreases |ops|
  {
    if ops != [] {
      match ops[0] {
        case GetSession(call) => GetSessionKeepsMaker(s, caps, call, i, key, c);
        case CloseOutside(_) =>
        case ClearSessions => CloseAllCloses(s.w, s.sessions);
        case ClearContexts => FinalizeAllFinalizes(s.w, s.contexts);
      }
      RunKeepsMaker(Apply(s, caps, ops[0]), caps, ops[1..], i, key, c);
    }
  }

  /** Exactly as long as its session is open, a key keeps giving the same context and session, whatever other calls,
      evictions and clears come in between. */
  lemma GetSessionIsStable(caps: Capacities, ops: seq<Op>, a: Call, more: seq<Op>, b: Call)
    requires b.hash == a.hash && b.repoHash == a.repoHash && b.verifies
    ensures var (s1, r1) := GetSessionSpec(Run(Empty, caps, ops), caps, a);
      var s2 := Run(s1, caps, more);
      r1.Some? ==> (GetSessionSpec(s2, caps, b).1 == r1 <==> r1.value.1 in s2.w.open)
  {
    RunPreserves(Empty, caps, ops);
    GetSessionPreserves(Run(Empty, caps, ops), caps, a);
    var (s1, r1) := GetSessionSpec(Run(Empty, caps, ops), caps, a);
    RunPreserves(s1, caps, more);
    var s2 := Run(s1, caps, more);
    GetSessionPreserves(s2, caps, b);
    if r1.Some? {
      var c, i, key := r1.value.0, r1.value.1, SessionKey(a.hash.value, a.repoHash);
      RunKeepsMaker(s1, caps, more, i, key, c);
      GetSessionKeepsMaker(s2, caps, b, i, key, c);
      if i in s2.w.open { OpenSessionIsReused(s2, caps, b, i, c); }
    }
  }

  lemma OpenSessionIsReused(s: CacheState, caps: Capacities, call: Call, i: Session, c: Context)
    requires Inv(s, caps) && i in s.w.open && call.hash.Some? && call.verifies
    requires MadeFor(s.w, i, SessionKey(call.hash.value, call.repoHash), c)
    ensures GetSessionSpec(s, caps, call).1 == Some((c, i))
  {
    Lru.TouchFacts(s.contexts, call.hash.value);
  }

  /** A session handed out twice was asked for under one key both times, whatever happened in between. */
  lemma SameSessionSameKey(caps: Capacities, ops: seq<Op>, a: Call, more: seq<Op>, b: Call)
    ensures
      var (s1, r1) := GetSessionSpec(Run(Empty, caps, ops), caps, a);
      var (s2, r2) := GetSessionSpec(Run(s1, caps, more), caps, b);
      r1.Some? && r2.Some? && r1.value.1 == r2.value.1 ==> a.hash == b.hash && a.repoHash == b.repoHash
  {
    RunPreserves(Empty, caps, ops);
    GetSessionPreserves(Run(Empty, caps, ops), caps, a);
    var (s1, r1) := GetSessionSpec(Run(Empty, caps, ops), caps, a);
    RunPreserves(s1, caps, more);
    GetSessionPreserves(Run(s1, caps, more), caps, b);
    var (s2, r2) := GetSessionSpec(Run(s1, caps, more), caps, b);
    if r1.Some? && r2.Some? && r1.value.1 == r2.value.1 {
      var key := SessionKey(a.hash.value, a.repoHash);
      RunKeepsMaker(s1, caps, more, r1.value.1, key, r1.value.0);
      GetSessionKeepsMaker(Run(s1, caps, more), caps, b, r1.value.1, key, r1.value.0);
    }
  }

  /** What the cluster holds for one reference: a Secret's data, or a ConfigMap's data under its binary data. */
  function Held(c: EffectiveConfig.Config, cluster: Cluster): Data
    requires c.kind == "Secret" ==> NameOf(c) in cluster.secrets
    requires c.kind != "Secret" ==> NameOf(c) in cluster.configMaps
  {
    if c.kind == "Secret" then cluster.secrets[NameOf(c)]
    else cluster.configMaps[NameOf(c)].0 + cluster.configMaps[NameOf(c)].1
  }

  ghost predicate AllHeld(cs: seq<EffectiveConfig.Config>, cluster: Cluster) {
    forall c :: c in cs ==>
      (c.kind == "Secret" && NameOf(c) in cluster.secrets) || (c.kind == "ConfigMap" && NameOf(c) in cluster.configMaps)
  }

  function Holdings(cs: seq<EffectiveConfig.Config>, cluster: Cluster): seq<Data>
    requires AllHeld(cs, cluster)
  {
    seq(|cs|, i requires 0 <= i < |cs| => Held(cs[i], cluster))
  }

  lemma HoldingsAreFetched(cs: seq<EffectiveConfig.Config>, cluster: Cluster)
    ensures AllHeld(cs, cluster) <==> AllFetched(cs, cluster)
    ensures AllHeld(cs, cluster) ==> Holdings(cs, cluster) == DataOf(Fetched(cs, cluster))
  {
    forall c { FetchMeans(c, cluster); }
    if AllHeld(cs, cluster) {
      var fetched := Fetched(cs, cluster);
      forall i | 0 <= i < |cs| ensures Holdings(cs, cluster)[i] == DataOf(fetched)[i] {
        assert cs[i] in cs && DataOf(fetched)[i] == ObjectData(fetched[i]);
      }
    }
  }

  /** The assumptions on one call for the hash to tell contents apart. */
  ghost predicate Hashable(cs: seq<EffectiveConfig.Config>, cluster: Cluster) {
    AllHeld(cs, cluster) && forall d :: d in Holdings(cs, cluster) ==> NulFree(d)
  }

  /** Every byte string that is hashed for the configuration of one call. */
  ghost function HashedFor(cs: seq<EffectiveConfig.Config>, cluster: Cluster, H: HashFunction): set<ByteString> {
    if AllFetched(cs, cluster) then HashedInputs(Fetched(cs, cluster), H) else {}
  }

  /** So a session is never shared between different inputs: both calls had the same repository spec, and the cluster
      held the same contents for their configurations. */
  lemma SessionsAreNotShared(caps: Capacities, ops: seq<Op>, more: seq<Op>, H: HashFunction,
                             a: Options, clusterA: Cluster, b: Options, clusterB: Cluster)
    requires DigestsHave32Bytes(H) && Hashable(a.configs, clusterA) && Hashable(b.configs, clusterB)
    requires CollisionFree(H, HashedFor(a.configs, clusterA, H) + HashedFor(b.configs, clusterB, H))
    ensures
      var (s1, r1) := GetSessionSpec(Run(Empty, caps, ops), caps, CallOf(Some(a), clusterA, H));
      var (s2, r2) := GetSessionSpec(Run(s1, caps, more), caps, CallOf(Some(b), clusterB, H));
      r1.Some? && r2.Some? && r1.value.1 == r2.value.1 ==>
        && a.repositorySpec == b.repositorySpec
        && multiset(Holdings(a.configs, clusterA)) == multiset(Holdings(b.configs, clusterB))
  {
    HoldingsAreFetched(a.configs, clusterA);
    HoldingsAreFetched(b.configs, clusterB);
    var oa, ob := Fetched(a.configs, clusterA), Fetched(b.configs, clusterB);
    forall o | o in oa || o in ob ensures NulFree(ObjectData(o)) {
      if o in oa { FetchedHolds(a.configs, clusterA, o); } else { FetchedHolds(b.configs, clusterB, o); }
    }
    SameSessionSameKey(caps, ops, CallOf(Some(a), clusterA, H), more, CallOf(Some(b), clusterB, H));
    SessionKeysAgree(oa, a.repositorySpec, ob, b.repositorySpec, H);
  }

  lemma FetchedHolds(cs: seq<EffectiveConfig.Config>, cluster: Cluster, o: ConfigObject)
    requires AllHeld(cs, cluster) && AllFetched(cs, cluster) && o in Fetched(cs, cluster)
    ensures ObjectData(o) in Holdings(cs, cluster)
  {
    HoldingsAreFetched(cs, cluster);
    var fetched := Fetched(cs, cluster);
    var i :| 0 <= i < |fetched| && fetched[i] == o;
    assert DataOf(fetched)[i] == ObjectData(o);
  }

  /** In particular: calls that each refer to one Secret never get the same session if its data differ, and likewise for
      one ConfigMap, its binary data included. */
  lemma DifferentObjectsDifferentSessions(caps: Capacities, ops: seq<Op>, more: seq<Op>, H: HashFunction,
                                          a: Options, clusterA: Cluster, b: Options, clusterB: Cluster)
    requires |a.configs| == |b.configs| == 1 && a.configs[0].kind == b.configs[0].kind
    requires DigestsHave32Bytes(H) && Hashable(a.configs, clusterA) && Hashable(b.configs, clusterB)
    requires CollisionFree(H, HashedFor(a.configs, clusterA, H) + HashedFor(b.configs, clusterB, H))
    requires var x, y := NameOf(a.configs[0]), NameOf(b.configs[0]);
      if a.configs[0].kind == "Secret" then clusterA.secrets[x] != clusterB.secrets[y]
      else clusterA.configMaps[x].0 + clusterA.configMaps[x].1 != clusterB.configMaps[y].0 + clusterB.configMaps[y].1
    ensures
      var (s1, r1) := GetSessionSpec(Run(Empty, caps, ops), caps, CallOf(Some(a), clusterA, H));
      var (s2, r2) := GetSessionSpec(Run(s1, caps, more), caps, CallOf(Some(b), clusterB, H));
      !(r1.Some? && r2.Some? && r1.value.1 == r2.value.1)
  {
    assert a.configs[0] in a.configs && b.configs[0] in b.configs;
    DifferentSingles(Holdings(a.configs, clusterA), Holdings(b.configs, clusterB));
    SessionsAreNotShared(caps, ops, more, H, a, clusterA, b, clusterB);
  }

  lemma DifferentSingles(x: seq<Data>, y: seq<Data>)
    requires |x| == |y| == 1 && x[0] != y[0]
    ensures multiset(x) != multiset(y)
  {
    assert x == [x[0]] && y == [y[0]];
    assert x[0] in multiset(x) && x[0] !in multiset(y);
  }

  /** A call succeeds exactly if its objects exist, a context for them is cached or accepts them all, and verification
      keys can be had; one that fails leaves the sessions alone, and caches no context that rejected an object. */
  lemma GetSessionSucceedsIff(s: CacheState, caps: Capacities, opts: Options, cluster: Cluster, H: HashFunction)
    ensures var call := CallOf(Some(opts), cluster, H);
      var (s', r) := GetSessionSpec(s, caps, call);
      && (r.Some? <==>
            && AllHeld(opts.configs, cluster) && cluster.verifies
            && (Lru.Lookup(s.contexts, call.hash.value).Some? ||
                forall o :: o in Fetched(opts.configs, cluster) ==> cluster.accepts(o)))
      && (r.None? ==> s'.sessions == s.sessions)
      && (!call.applies && call.hash.Some? && Lru.Lookup(s.contexts, call.hash.value).None? ==>
            s' == s.(w := s.w.(contextsMade := s.w.contextsMade + 1)))
  {
    HoldingsAreFetched(opts.configs, cluster);
  }

  class ContextCache {
    const contexts: Lru.Cache<string, Context>
    const sessions: Lru.Cache<SessionKey, Session>
    const H: HashFunction
    var world: World

    ghost predicate Valid()
      reads this, contexts, sessions
    {
      contexts.Valid() && sessions.Valid()
    }

    ghost function State(): CacheState
      reads this, contexts, sessions
    {
      CacheState(contexts.entries, sessions.entries, world)
    }

    ghost function Caps(): Capacities { Capacities(contexts.capacity, sessions.capacity) }

    constructor (contextCacheSize: nat, sessionCacheSize: nat, H: HashFunction)
      ensures Valid() && fresh(contexts) && fresh(sessions) && State() == Empty
      ensures Caps() == Capacities(contextCacheSize, sessionCacheSize) && this.H == H
    {
      contexts := new Lru.Cache(contextCacheSize);
      sessions := new Lru.Cache(sessionCacheSize);
      this.H := H;
      world := EmptyWorld;
    }

    /** Fetch the objects in order; an unsupported kind or a missing object ends the call. For configurations as
        they are stored in statuses, the kind is never the reason. */
    method GetConfigObjects(configs: seq<EffectiveConfig.Config>, cluster: Cluster)
      returns (r: Result<seq<ConfigObject>, string>)
      ensures r.Ok? <==> AllFetched(configs, cluster)
      ensures r.Ok? ==> r.value == Fetched(configs, cluster)
      ensures r.Ok? <==> forall c :: c in configs ==>
        || (c.kind == "Secret" && ObjectName(c.namespace, c.name) in cluster.secrets)
        || (c.kind == "ConfigMap" && ObjectName(c.namespace, c.name) in cluster.configMaps)
      ensures r.Ok? ==> |r.value| == |configs| && forall i :: 0 <= i < |configs| ==>
        var name := ObjectName(configs[i].namespace, configs[i].name);
        && (configs[i].kind == "Secret" ==> r.value[i] == Secret(cluster.secrets[name]))
        && (configs[i].kind == "ConfigMap" ==>
              r.value[i] == ConfigMap(cluster.configMaps[name].0, cluster.configMaps[name].1))
      ensures EffectiveConfig.AreConfigs(configs) && r.Err? ==> r.error == "get"
    {
      var objects: seq<ConfigObject> := [];
      forall c | c in configs { FetchMeans(c, cluster); }
      for i := 0 to |configs|
        invariant AllFetched(configs[..i], cluster) && objects == Fetched(configs[..i], cluster)
      {
        var c := configs[i];
        var o := Fetch(c, cluster);
        assert c in configs && (!EffectiveConfig.IsConfigKind(c.kind) ==> o.None?);
        if !EffectiveConfig.IsConfigKind(c.kind) { return Err("unsupported configuration kind"); }
        if o.None? { return Err("get"); }
        objects := objects + [o.value];
      }
      assert configs[..|configs|] == configs;
      r := Ok(objects);
    }

    /** All objects are applied, even after one has been rejected. */
    method Configure(objects: seq<ConfigObject>, accepts: ConfigObject -> bool) returns (ok: bool)
      ensures ok == AllAccepted(objects, accepts)
    {
      ok := true;
      for i := 0 to |objects|
        invariant ok == AllAccepted(objects[..i], accepts)
      {
        assert objects[..i + 1] == objects[..i] + [objects[i]];
        ok := accepts(objects[i]) && ok;
      }
      assert objects[..|objects|] == objects;
    }

    method GetOrCreateContext(hash: string, objects: seq<ConfigObject>, accepts: ConfigObject -> bool)
      returns (r: Option<Context>)
      requires Valid()
      modifies this, contexts
      ensures Valid()
      ensures (State(), r) == old(ContextSpec(State(), Caps(), hash, AllAccepted(objects, accepts)))
    {
      var cached := contexts.Get(hash);
      if cached.Some? { return cached; }
      var c := world.contextsMade;
      world := world.(contextsMade := c + 1);
      var ok := Configure(objects, accepts);
      if !ok { return None; }
      world := world.(hashOf := world.hashOf[c := hash]);
      var evicted := contexts.Add(hash, c);
      world := FinalizeEvicted(world, evicted);
      r := Some(c);
    }

    method GetOrCreateSession(key: SessionKey, c: Context) returns (i: Session)
      requires Valid()
      modifies this, sessions
      ensures Valid()
      ensures (State(), i) == old(SessionSpec(State(), Caps(), key, c))
    {
      var cached := sessions.Get(key);
      if cached.Some? && cached.value in world.open { return cached.value; }
      i := world.sessionsMade;
      world := MakeSession(world, key, c);
      var evicted := sessions.Add(key, i);
      world := CloseEvicted(world, evicted);
    }

    /** Whatever the call finds out, the cache ends in the state the specification gives, so that all results
        about runs hold of it; in particular a session is returned open and owned. */
    method GetSession(opts: Option<Options>, cluster: Cluster) returns (r: Result<(Context, Session), string>)
      requires Valid()
      modifies this, contexts, sessions
      ensures Valid()
      ensures State() == old(GetSessionSpec(State(), Caps(), CallOf(opts, cluster, H))).0
      ensures old(GetSessionSpec(State(), Caps(), CallOf(opts, cluster, H))).1
           == if r.Ok? then Some(r.value) else None
      ensures old(Inv(State(), Caps())) ==>
        && Inv(State(), Caps())
        && (r.Ok? ==> r.value.1 in world.open && world.owner[r.value.1] == r.value.0 && r.value.0 !in world.finalized)
    {
      if old(Inv(State(), Caps())) { GetSessionPreserves(State(), Caps(), CallOf(opts, cluster, H)); }
      if opts.None? { return Err("opts is nil"); }
      var objects := GetConfigObjects(opts.value.configs, cluster);
      if objects.Err? { return Err(objects.error); }
      var hash := GetObjectDataHash(objects.value, H);
      if hash.Err? { return Err("hash config objects"); }
      var octx := GetOrCreateContext(hash.value, objects.value, cluster.accepts);
      if octx.None? { return Err("configure context failed"); }
      if !cluster.verifies { return Err("register verifications"); }
      var session := GetOrCreateSession(SessionKey(hash.value, RepoHash(opts.value.repositorySpec, H)), octx.value);
      r := Ok((octx.value, session));
    }

    /** Sessions first, then contexts. */
    method Clear()
      requires Valid()
      modifies this, contexts, sessions
      ensures Valid()
      ensures State() == Run(old(State()), Caps(), [ClearSessions, ClearContexts])
      ensures old(Inv(State(), Caps())) ==> world.open == {}
    {
      ghost var s0 := State();
      ghost var caps := Caps();
      var evictedSessions := sessions.Clear();
      CloseEach(evictedSessions);
      ghost var s1 := State();
      var evictedContexts := contexts.Clear();
      FinalizeEach(evictedContexts);
      assert s1 == Apply(s0, caps, ClearSessions) && State() == Apply(s1, caps, ClearContexts);
      assert [ClearSessions, ClearContexts][1..] == [ClearContexts] && [ClearContexts][1..] == [];
      if Inv(s0, caps) {
        ClearSessionsPreserves(s0, caps);
        ClearContextsPreserves(s1, caps);
      }
    }

    method CloseEach(es: Lru.Entries<SessionKey, Session>)
      modifies this
      ensures world == CloseAll(old(world), es)
    {
      var j := 0;
      while j < |es|
        invariant 0 <= j <= |es|
        invariant CloseAll(world, es[j..]) == CloseAll(old(world), es)
      {
        assert es[j..][0] == es[j] && es[j..][1..] == es[j + 1..];
        world := Close(world, es[j].1);
        j := j + 1;
      }
    }

    method FinalizeEach(es: Lru.Entries<string, Context>)
      modifies this
      ensures world == FinalizeAll(old(world), es)
    {
      var j := 0;
      while j < |es|
        invariant 0 <= j <= |es|
        invariant FinalizeAll(world, es[j..]) == FinalizeAll(old(world), es)
      {
        assert es[j..][0] == es[j] && es[j..][1..] == es[j + 1..];
        world := Finalize(world, es[j].1);
        j := j + 1;
      }
    }
  }
}
