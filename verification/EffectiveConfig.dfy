/** Effective configuration: how an object's configuration references are resolved one level deep through the
    statuses of other objects, and what that means over many reconciles of many objects. */
module EffectiveConfig {
  import opened Results

  datatype Policy = Propagate | DoNotPropagate | OtherPolicy(text: string)

  datatype Config = Config(apiVersion: string, kind: string, namespace: string, name: string, policy: Policy)

  datatype Key = Key(kind: string, namespace: string, name: string)

  datatype Error =
    | MissingAPIVersion(kind: string)
    | UnsupportedKind(kind: string)
    | FetchFailed(key: Key)

  /** The effective configuration stored in the status of each existing object. */
  type Statuses = map<Key, seq<Config>>

  const CORE_V1 := "v1"

  predicate IsConfigKind(kind: string) { kind == "Secret" || kind == "ConfigMap" }

  predicate IsOcmKind(kind: string) {
    kind == "Repository" || kind == "Component" || kind == "Resource" || kind == "Replication"
  }

  // ---------------------------------------------------------------------------------------------------
  // One resolution
  // ---------------------------------------------------------------------------------------------------

  /** What a reference points to, with the namespace of the referring object as default. */
  function Target(c: Config, ns: string): Key {
    Key(c.kind, if c.namespace == "" then ns else c.namespace, c.name)
  }

  /** A direct reference to a Secret or ConfigMap, with its defaults filled in. */
  function Direct(c: Config, ns: string): Config {
    c.(namespace := Target(c, ns).namespace, apiVersion := if c.apiVersion == "" then CORE_V1 else c.apiVersion)
  }

  /** The entries another object propagates, under the policy of the reference to that object. */
  function Inherited(entries: seq<Config>, policy: Policy): seq<Config> {
    if entries == [] then [] else
      (if entries[0].policy == Propagate then [entries[0].(policy := policy)] else []) + Inherited(entries[1..], policy)
  }

  function ResolveOne(c: Config, ns: string, st: Statuses): Result<seq<Config>, Error> {
    if IsConfigKind(c.kind) then Ok([Direct(c, ns)])
    else if c.apiVersion == "" then Err(MissingAPIVersion(c.kind))
    else if !IsOcmKind(c.kind) then Err(UnsupportedKind(c.kind))
    else if Target(c, ns) !in st then Err(FetchFailed(Target(c, ns)))
    else Ok(Inherited(st[Target(c, ns)], c.policy))
  }

  /** All references in order, up to the first that fails. */
  function Resolve(cs: seq<Config>, ns: string, st: Statuses): Result<seq<Config>, Error> {
    if cs == [] then Ok([]) else
      var head := ResolveOne(cs[0], ns, st);
      if head.Err? then head else
        var tail := Resolve(cs[1..], ns, st);
        if tail.Err? then tail else Ok(head.value + tail.value)
  }

  // ---------------------------------------------------------------------------------------------------
  // What a resolution gives, clause by clause
  // ---------------------------------------------------------------------------------------------------

  /** A Secret or ConfigMap is listed as it is referred to: an explicit namespace and API version are kept, empty ones
      become the referring object's namespace and v1. */
  lemma {:induction false} DirectReference(c: Config, ns: string, st: Statuses)
    requires c.kind == "Secret" || c.kind == "ConfigMap"
    ensures Resolve([c], ns, st).Ok? && |Resolve([c], ns, st).value| == 1
    ensures var e := Resolve([c], ns, st).value[0];
      && e.kind == c.kind && e.name == c.name && e.policy == c.policy
      && e.namespace == (if c.namespace == "" then ns else c.namespace)
      && e.apiVersion == (if c.apiVersion == "" then "v1" else c.apiVersion)
  {
    ResolveSingle(c, ns, st);
  }

  /** Any other object hands down, in order and under the policy of the reference, its entries with policy Propagate. The
      reference needs an API version and one of four kinds, to which Deployer does not belong, and the object has to
      exist in the namespace named, or that of the referring object. */
  lemma {:induction false} IndirectReference(c: Config, ns: string, st: Statuses)
    requires c.kind != "Secret" && c.kind != "ConfigMap"
    ensures var target := Key(c.kind, if c.namespace == "" then ns else c.namespace, c.name);
      Resolve([c], ns, st) ==
        if c.apiVersion == "" then Err(MissingAPIVersion(c.kind))
        else if c.kind !in {"Repository", "Component", "Resource", "Replication"} then Err(UnsupportedKind(c.kind))
        else if target !in st then Err(FetchFailed(target))
        else Ok(Inherited(st[target], c.policy))
  {
    ResolveSingle(c, ns, st);
  }

  lemma {:induction false} ResolveSingle(c: Config, ns: string, st: Statuses)
    ensures Resolve([c], ns, st) == ResolveOne(c, ns, st)
  {
    assert [c][1..] == [];
    if ResolveOne(c, ns, st).Ok? { assert ResolveOne(c, ns, st).value + [] == ResolveOne(c, ns, st).value; }
  }

  /** References are taken in order, and the first error ends the resolution. */
  lemma {:induction false} ResolveInOrder(a: seq<Config>, b: seq<Config>, ns: string, st: Statuses)
    ensures var x, y := Resolve(a, ns, st), Resolve(b, ns, st);
      Resolve(a + b, ns, st) == if x.Err? then x else if y.Err? then y else Ok(x.value + y.value)
    decreases |a|
  {
    if a == [] {
      assert a + b == b;
      if Resolve(b, ns, st).Ok? { assert [] + Resolve(b, ns, st).value == Resolve(b, ns, st).value; }
    } else {
      assert (a + b)[0] == a[0] && (a + b)[1..] == a[1..] + b;
      ResolveInOrder(a[1..], b, ns, st);
      var head, x, y := ResolveOne(a[0], ns, st), Resolve(a[1..], ns, st), Resolve(b, ns, st);
      if head.Ok? && x.Ok? && y.Ok? { assert head.value + (x.value + y.value) == (head.value + x.value) + y.value; }
    }
  }

  /** What is handed down of one entry, and that of several in their order. */
  lemma {:induction false} InheritedInOrder(a: seq<Config>, b: seq<Config>, e: Config, policy: Policy)
    ensures Inherited(a + b, policy) == Inherited(a, policy) + Inherited(b, policy)
    ensures Inherited([e], policy) == if e.policy == Propagate then [e.(policy := policy)] else []
    decreases |a|
  {
    assert [e][1..] == [];
    if a == [] {
      assert a + b == b;
      assert [] + Inherited(b, policy) == Inherited(b, policy);
    } else {
      assert (a + b)[0] == a[0] && (a + b)[1..] == a[1..] + b;
      InheritedInOrder(a[1..], b, e, policy);
    }
  }

  /** Entries found so far, followed by what the remaining references give. */
  ghost function Prepend(refs: seq<Config>, rest: Result<seq<Config>, Error>): Result<seq<Config>, Error> {
    if rest.Err? then rest else Ok(refs + rest.value)
  }

  lemma PrependNothing(r: Result<seq<Config>, Error>)
    ensures Prepend([], r) == r
  {
    if r.Ok? { assert [] + r.value == r.value; }
  }

  lemma PrependInParts(refs: seq<Config>, head: Result<seq<Config>, Error>, tail: Result<seq<Config>, Error>)
    requires head.Ok?
    ensures Prepend(refs, if tail.Err? then tail else Ok(head.value + tail.value)) == Prepend(refs + head.value, tail)
  {
    if tail.Ok? { assert refs + (head.value + tail.value) == (refs + head.value) + tail.value; }
  }

  /** The inner loop: append what the referenced object propagates. */
  method AppendInherited(refs: seq<Config>, entries: seq<Config>, policy: Policy) returns (r: seq<Config>)
    ensures r == refs + Inherited(entries, policy)
  {
    r := refs;
    var j := 0;
    assert entries[0..] == entries;
    while j < |entries|
      invariant 0 <= j <= |entries|
      invariant refs + Inherited(entries, policy) == r + Inherited(entries[j..], policy)
    {
      assert entries[j..][1..] == entries[j + 1..];
      if entries[j].policy == Propagate {
        r := r + [entries[j].(policy := policy)];
      }
      j := j + 1;
    }
  }

  method GetEffectiveConfig(cs: seq<Config>, ns: string, st: Statuses) returns (r: Result<seq<Config>, Error>)
    ensures r == Resolve(cs, ns, st)
  {
    var refs: seq<Config> := [];
    var i := 0;
    assert cs[0..] == cs;
    PrependNothing(Resolve(cs, ns, st));
    while i < |cs|
      invariant 0 <= i <= |cs|
      invariant Resolve(cs, ns, st) == Prepend(refs, Resolve(cs[i..], ns, st))
    {
      var c := cs[i];
      assert cs[i..][0] == c && cs[i..][1..] == cs[i + 1..];
      ghost var before := refs;
      if IsConfigKind(c.kind) {
        if c.namespace == "" { c := c.(namespace := ns); }
        if c.apiVersion == "" { c := c.(apiVersion := CORE_V1); }
        refs := refs + [c];
      } else {
        if c.apiVersion == "" { return Err(MissingAPIVersion(c.kind)); }
        if !IsOcmKind(c.kind) { return Err(UnsupportedKind(c.kind)); }
        if Target(c, ns) !in st { return Err(FetchFailed(Target(c, ns))); }
        refs := AppendInherited(refs, st[Target(c, ns)], c.policy);
      }
      PrependInParts(before, ResolveOne(cs[i], ns, st), Resolve(cs[i + 1..], ns, st));
      i := i + 1;
    }
    assert refs + [] == refs;
    r := Ok(refs);
  }

  // ---------------------------------------------------------------------------------------------------
  // Runs of a cluster
  // ---------------------------------------------------------------------------------------------------

  /** The configuration references in the specs of all objects that may exist; fixed for a run. */
  type Specs = map<Key, seq<Config>>

  /** `Skip` is a reconcile that ends before it resolves anything. For a Replication that is Ready and whose transfer
      is recorded this is the normal successful path; any object can be suspended, or fail earlier on. */
  datatype Step = Create(key: Key) | Delete(key: Key) | Reconcile(key: Key) | Skip(key: Key)

  /** A reconcile that gets that far stores the effective configuration if it can be resolved. */
  function Apply(specs: Specs, st: Statuses, step: Step): Statuses {
    match step
    case Create(k) => if k in specs && k !in st then st[k := []] else st
    case Delete(k) => st - {k}
    case Reconcile(k) =>
      if k !in specs || k !in st then st else
        var resolved := Resolve(specs[k], k.namespace, st);
        if resolved.Ok? then st[k := resolved.value] else st
    case Skip(_) => st
  }

  function Run(specs: Specs, st: Statuses, steps: seq<Step>): Statuses
    decreases |steps|
  {
    if steps == [] then st else Run(specs, Apply(specs, st, steps[0]), steps[1..])
  }

  /** A step concerns one object: the others keep what they have stored, and so does the object itself if its
      configuration cannot be resolved. */
  lemma {:induction false} StepChangesOne(specs: Specs, st: Statuses, step: Step)
    ensures forall k :: k in st && k != step.key ==> k in Apply(specs, st, step) && Apply(specs, st, step)[k] == st[k]
    ensures step.Reconcile? && step.key in specs && Resolve(specs[step.key], step.key.namespace, st).Err? ==>
      Apply(specs, st, step) == st
    ensures step.Create? && step.key in specs && step.key !in st ==> Apply(specs, st, step) == st[step.key := []]
  {}

  lemma {:induction false} RunConcat(specs: Specs, st: Statuses, xs: seq<Step>, ys: seq<Step>)
    ensures Run(specs, st, xs + ys) == Run(specs, Run(specs, st, xs), ys)
    decreases |xs|
  {
    if xs == [] {
      assert xs + ys == ys;
    } else {
      assert (xs + ys)[1..] == xs[1..] + ys;
      RunConcat(specs, Apply(specs, st, xs[0]), xs[1..], ys);
    }
  }

  // ---------------------------------------------------------------------------------------------------
  // Only Secrets and ConfigMaps are stored
  // ---------------------------------------------------------------------------------------------------

  predicate AreConfigs(entries: seq<Config>) {
    forall e :: e in entries ==> IsConfigKind(e.kind) && e.apiVersion != ""
  }

  ghost predicate StatusesAreConfigs(st: Statuses) {
    forall k :: k in st ==> AreConfigs(st[k])
  }

  lemma {:induction false} InheritedFrom(entries: seq<Config>, policy: Policy, e: Config)
    requires e in Inherited(entries, policy)
    ensures exists d :: d in entries && d.policy == Propagate && e == d.(policy := policy)
  {
    if entries[0].policy != Propagate || e != entries[0].(policy := policy) {
      InheritedFrom(entries[1..], policy, e);
      var d :| d in entries[1..] && d.policy == Propagate && e == d.(policy := policy);
      assert d in entries;
    }
  }

  lemma {:induction false} ResolvedAreConfigs(cs: seq<Config>, ns: string, st: Statuses)
    requires StatusesAreConfigs(st)
    ensures Resolve(cs, ns, st).Ok? ==> AreConfigs(Resolve(cs, ns, st).value)
  {
    if cs != [] && Resolve(cs, ns, st).Ok? {
      var c := cs[0];
      var head := ResolveOne(c, ns, st).value;
      ResolvedAreConfigs(cs[1..], ns, st);
      forall e | e in head ensures IsConfigKind(e.kind) && e.apiVersion != "" {
        if !IsConfigKind(c.kind) {
          InheritedFrom(st[Target(c, ns)], c.policy, e);
        }
      }
    }
  }

  /** In every reachable cluster every effective configuration entry is a Secret or ConfigMap with an API version. */
  lemma {:induction false} OnlyConfigsStored(specs: Specs, st: Statuses, steps: seq<Step>)
    requires StatusesAreConfigs(st)
    ensures StatusesAreConfigs(Run(specs, st, steps))
    decreases |steps|
  {
    if steps != [] {
      var k := steps[0].key;
      if k in specs { ResolvedAreConfigs(specs[k], k.namespace, st); }
      OnlyConfigsStored(specs, Apply(specs, st, steps[0]), steps[1..]);
    }
  }

  // ---------------------------------------------------------------------------------------------------
  // What is not to be propagated is not
  // ---------------------------------------------------------------------------------------------------

  function Identity(e: Config): Key { Key(e.kind, e.namespace, e.name) }

  ghost predicate ListsDirectly(specs: Specs, k: Key, id: Key) {
    k in specs && exists c :: c in specs[k] && IsConfigKind(c.kind) && Target(c, k.namespace) == id
  }

  /** Nobody lists `id` under the policy Propagate. */
  ghost predicate NeverPropagated(specs: Specs, id: Key) {
    forall k, c :: k in specs && c in specs[k] && IsConfigKind(c.kind) && Target(c, k.namespace) == id ==>
      c.policy != Propagate
  }

  ghost predicate Confined(specs: Specs, id: Key, k: Key, entries: seq<Config>) {
    forall e :: e in entries && Identity(e) == id ==> e.policy != Propagate && ListsDirectly(specs, k, id)
  }

  ghost predicate ConfinedEverywhere(specs: Specs, id: Key, st: Statuses) {
    forall k :: k in st ==> Confined(specs, id, k, st[k])
  }

  lemma {:induction false} ResolvedIsConfined(specs: Specs, id: Key, st: Statuses, k: Key, cs: seq<Config>)
    requires NeverPropagated(specs, id) && ConfinedEverywhere(specs, id, st)
    requires k in specs && forall c :: c in cs ==> c in specs[k]
    ensures Resolve(cs, k.namespace, st).Ok? ==> Confined(specs, id, k, Resolve(cs, k.namespace, st).value)
    decreases |cs|
  {
    if cs != [] && Resolve(cs, k.namespace, st).Ok? {
      var c := cs[0];
      var head := ResolveOne(c, k.namespace, st).value;
      ResolvedIsConfined(specs, id, st, k, cs[1..]);
      forall e | e in head && Identity(e) == id ensures e.policy != Propagate && ListsDirectly(specs, k, id) {
        if IsConfigKind(c.kind) {
          assert Target(c, k.namespace) == id;
        } else {
          InheritedFrom(st[Target(c, k.namespace)], c.policy, e);
        }
      }
    }
  }

  /** Over every run, cyclic references included: a Secret or ConfigMap that nobody lists as Propagate never
      reaches an object that does not list it itself. */
  lemma {:induction false} NotPropagatedStaysConfined(specs: Specs, id: Key, st: Statuses, steps: seq<Step>)
    requires NeverPropagated(specs, id) && ConfinedEverywhere(specs, id, st)
    ensures ConfinedEverywhere(specs, id, Run(specs, st, steps))
    decreases |steps|
  {
    if steps != [] {
      var k := steps[0].key;
      if k in specs { ResolvedIsConfined(specs, id, st, k, specs[k]); }
      NotPropagatedStaysConfined(specs, id, Apply(specs, st, steps[0]), steps[1..]);
    }
  }

  /** The same from an empty cluster, in the words of the API: no entry without a direct listing. */
  lemma {:induction false} DoNotPropagateIsRespected(specs: Specs, id: Key, steps: seq<Step>, k: Key, e: Config)
    requires NeverPropagated(specs, id)
    requires k in Run(specs, map[], steps) && e in Run(specs, map[], steps)[k] && Identity(e) == id
    ensures ListsDirectly(specs, k, id) && e.policy != Propagate
  {
    NotPropagatedStaysConfined(specs, id, map[], steps);
  }

  // ---------------------------------------------------------------------------------------------------
  // Acyclic references: the recursive meaning
  // ---------------------------------------------------------------------------------------------------

  type Rank = Key -> nat

  ghost predicate Resolvable(specs: Specs, rank: Rank, k: Key, c: Config) {
    IsConfigKind(c.kind) ||
    (IsOcmKind(c.kind) && c.apiVersion != "" && Target(c, k.namespace) in specs && rank(Target(c, k.namespace)) < rank(k))
  }

  /** References are supported, have targets, and lead to objects of lower rank. */
  ghost predicate Acyclic(specs: Specs, rank: Rank) {
    forall k, c :: k in specs && c in specs[k] ==> Resolvable(specs, rank, k, c)
  }

  /** Objects whose stored configuration is taken as it is. */
  type Leaves = map<Key, seq<Config>>

  const NO_LEAVES: Leaves := map[]

  /** The configuration of `k` resolved through the specs all the way down, without any status but that of the leaves. */
  ghost function Meaning(specs: Specs, rank: Rank, leaves: Leaves, k: Key): seq<Config>
    requires Acyclic(specs, rank) && k in specs
    decreases rank(k), |specs[k]| + 1
  {
    if k in leaves then leaves[k] else MeaningOf(specs, rank, leaves, k, specs[k])
  }

  ghost function MeaningOf(specs: Specs, rank: Rank, leaves: Leaves, k: Key, cs: seq<Config>): seq<Config>
    requires Acyclic(specs, rank) && k in specs && forall c :: c in cs ==> c in specs[k]
    decreases rank(k), |cs|
  {
    if cs == [] then [] else
      var c := cs[0];
      assert Resolvable(specs, rank, k, c);
      (if IsConfigKind(c.kind) then [Direct(c, k.namespace)]
       else Inherited(Meaning(specs, rank, leaves, Target(c, k.namespace)), c.policy))
      + MeaningOf(specs, rank, leaves, k, cs[1..])
  }

  /** The meaning does not depend on how the objects are ranked. */
  lemma {:induction false} MeaningIgnoresRank(specs: Specs, r1: Rank, r2: Rank, leaves: Leaves, k: Key)
    requires Acyclic(specs, r1) && Acyclic(specs, r2) && k in specs
    ensures Meaning(specs, r1, leaves, k) == Meaning(specs, r2, leaves, k)
    decreases r1(k), |specs[k]| + 1
  {
    MeaningOfIgnoresRank(specs, r1, r2, leaves, k, specs[k]);
  }

  lemma {:induction false} MeaningOfIgnoresRank(specs: Specs, r1: Rank, r2: Rank, leaves: Leaves, k: Key,
                                                cs: seq<Config>)
    requires Acyclic(specs, r1) && Acyclic(specs, r2) && k in specs && forall c :: c in cs ==> c in specs[k]
    ensures MeaningOf(specs, r1, leaves, k, cs) == MeaningOf(specs, r2, leaves, k, cs)
    decreases r1(k), |cs|
  {
    if cs != [] {
      var c := cs[0];
      assert Resolvable(specs, r1, k, c) && Resolvable(specs, r2, k, c);
      if !IsConfigKind(c.kind) { MeaningIgnoresRank(specs, r1, r2, leaves, Target(c, k.namespace)); }
      MeaningOfIgnoresRank(specs, r1, r2, leaves, k, cs[1..]);
    }
  }

  ghost predicate Settled(specs: Specs, rank: Rank, leaves: Leaves, st: Statuses, k: Key)
    requires Acyclic(specs, rank)
  {
    k in specs && k in st && st[k] == Meaning(specs, rank, leaves, k)
  }

  ghost predicate AllExist(specs: Specs, st: Statuses) { forall k :: k in specs ==> k in st }

  /** `k` refers to the object `t`, to inherit its configuration. */
  ghost predicate RefersTo(specs: Specs, k: Key, t: Key) {
    k in specs && exists c :: c in specs[k] && !IsConfigKind(c.kind) && Target(c, k.namespace) == t
  }

  lemma {:induction false} ResolveGivesMeaning(specs: Specs, rank: Rank, leaves: Leaves, st: Statuses, k: Key,
                                               cs: seq<Config>)
    requires Acyclic(specs, rank) && k in specs && forall c :: c in cs ==> c in specs[k]
    requires forall t :: RefersTo(specs, k, t) ==> Settled(specs, rank, leaves, st, t)
    ensures Resolve(cs, k.namespace, st) == Ok(MeaningOf(specs, rank, leaves, k, cs))
    decreases |cs|
  {
    if cs != [] {
      var c := cs[0];
      assert Resolvable(specs, rank, k, c);
      if !IsConfigKind(c.kind) {
        assert RefersTo(specs, k, Target(c, k.namespace));
      }
      ResolveGivesMeaning(specs, rank, leaves, st, k, cs[1..]);
    }
  }

  /** One reconcile that stores its configuration settles an object whose referents are settled. */
  lemma ReconcileSettles(specs: Specs, rank: Rank, leaves: Leaves, st: Statuses, k: Key)
    requires Acyclic(specs, rank) && k in specs && k in st && k !in leaves
    requires forall t :: RefersTo(specs, k, t) ==> Settled(specs, rank, leaves, st, t)
    ensures Settled(specs, rank, leaves, Apply(specs, st, Reconcile(k)), k)
  {
    ResolveGivesMeaning(specs, rank, leaves, st, k, specs[k]);
  }

  // ---------------------------------------------------------------------------------------------------
  // Convergence
  // ---------------------------------------------------------------------------------------------------

  /** `k` is a leaf, or one of the `live` objects, and so is everything that its configuration reaches. */
  ghost predicate Supported(specs: Specs, rank: Rank, live: set<Key>, leaves: Leaves, k: Key)
    requires Acyclic(specs, rank) && k in specs
    decreases rank(k)
  {
    k in leaves ||
    (k in live && forall c :: c in specs[k] && !IsConfigKind(c.kind) ==>
       assert Resolvable(specs, rank, k, c);
       Supported(specs, rank, live, leaves, Target(c, k.namespace)))
  }

  ghost predicate SettledBelow(specs: Specs, rank: Rank, live: set<Key>, leaves: Leaves, st: Statuses, n: nat)
    requires Acyclic(specs, rank)
  {
    forall k :: k in specs && (rank(k) < n || k in leaves) && Supported(specs, rank, live, leaves, k) ==>
      Settled(specs, rank, leaves, st, k)
  }

  /** A visit is a reconcile, skipped or not; those of leaves are all skipped. */
  predicate IsVisit(leaves: Leaves, step: Step) {
    step.Skip? || (step.Reconcile? && step.key !in leaves)
  }

  ghost predicate AreVisits(leaves: Leaves, steps: seq<Step>) { forall step :: step in steps ==> IsVisit(leaves, step) }

  /** One visit, of whatever object and skipped or not, unsettles nothing of rank up to n. */
  lemma {:induction false} VisitKeepsSettled(specs: Specs, rank: Rank, live: set<Key>, leaves: Leaves,
                                             st: Statuses, n: nat, step: Step, k: Key)
    requires Acyclic(specs, rank) && AllExist(specs, st) && SettledBelow(specs, rank, live, leaves, st, n)
    requires IsVisit(leaves, step)
    requires k in specs && Supported(specs, rank, live, leaves, k) && (rank(k) <= n || k in leaves)
    requires step == Reconcile(k) || Settled(specs, rank, leaves, st, k)
    ensures Settled(specs, rank, leaves, Apply(specs, st, step), k)
  {
    if step == Reconcile(k) {
      forall t | RefersTo(specs, k, t) ensures Settled(specs, rank, leaves, st, t) {
        var c :| c in specs[k] && !IsConfigKind(c.kind) && Target(c, k.namespace) == t;
        assert Resolvable(specs, rank, k, c);
      }
      ReconcileSettles(specs, rank, leaves, st, k);
    }
  }

  lemma {:induction false} VisitsSettle(specs: Specs, rank: Rank, live: set<Key>, leaves: Leaves, st: Statuses, n: nat,
                                        steps: seq<Step>)
    requires Acyclic(specs, rank) && AllExist(specs, st) && SettledBelow(specs, rank, live, leaves, st, n)
    requires AreVisits(leaves, steps)
    ensures var st' := Run(specs, st, steps);
      && AllExist(specs, st') && SettledBelow(specs, rank, live, leaves, st', n)
      && forall k :: k in specs && rank(k) <= n && Supported(specs, rank, live, leaves, k) ==>
           Reconcile(k) in steps || Settled(specs, rank, leaves, st, k) ==> Settled(specs, rank, leaves, st', k)
    decreases |steps|
  {
    if steps != [] {
      var step, later := steps[0], steps[1..];
      var st1 := Apply(specs, st, step);
      assert step in steps && AllExist(specs, st1);
      forall k | k in specs && (rank(k) <= n || k in leaves) && Supported(specs, rank, live, leaves, k)
                 && (step == Reconcile(k) || Settled(specs, rank, leaves, st, k))
        ensures Settled(specs, rank, leaves, st1, k)
      {
        VisitKeepsSettled(specs, rank, live, leaves, st, n, step, k);
      }
      VisitsSettle(specs, rank, live, leaves, st1, n, later);
      forall k | k in specs && rank(k) <= n && Supported(specs, rank, live, leaves, k)
                 && (Reconcile(k) in steps || Settled(specs, rank, leaves, st, k))
        ensures Reconcile(k) in later || Settled(specs, rank, leaves, st1, k)
      {}
    }
  }

  /** In a round every live object stores its configuration at least once. The order is open; visits can be skipped
      besides, and objects that are neither live nor leaves do as they like. */
  ghost predicate Round(specs: Specs, live: set<Key>, leaves: Leaves, steps: seq<Step>) {
    AreVisits(leaves, steps) && forall k :: k in specs && k in live && k !in leaves ==> Reconcile(k) in steps
  }

  ghost function RunRounds(specs: Specs, st: Statuses, rounds: seq<seq<Step>>): Statuses
    decreases |rounds|
  {
    if rounds == [] then st else RunRounds(specs, Run(specs, st, rounds[0]), rounds[1..])
  }

  lemma {:induction false} RoundsSettle(specs: Specs, rank: Rank, live: set<Key>, leaves: Leaves, st: Statuses, n: nat,
                                        rounds: seq<seq<Step>>)
    requires Acyclic(specs, rank) && AllExist(specs, st) && SettledBelow(specs, rank, live, leaves, st, n)
    requires forall r :: r in rounds ==> Round(specs, live, leaves, r)
    ensures AllExist(specs, RunRounds(specs, st, rounds))
    ensures SettledBelow(specs, rank, live, leaves, RunRounds(specs, st, rounds), n + |rounds|)
    decreases |rounds|
  {
    if rounds != [] {
      assert Round(specs, live, leaves, rounds[0]);
      VisitsSettle(specs, rank, live, leaves, st, n, rounds[0]);
      RoundsSettle(specs, rank, live, leaves, Run(specs, st, rounds[0]), n + 1, rounds[1..]);
    }
  }

  /** The statuses of the leaves are what the leaves say. */
  ghost predicate Matches(leaves: Leaves, st: Statuses) { forall k :: k in leaves ==> k in st && st[k] == leaves[k] }

  /** Whatever the other statuses were: after n rounds every object of rank below n that reaches only live objects and
      leaves has its recursive meaning over these leaves as its effective configuration, and any further visits leave
      it so. */
  lemma {:induction false} Converges(specs: Specs, rank: Rank, live: set<Key>, leaves: Leaves, st: Statuses,
                                     rounds: seq<seq<Step>>,
                  more: seq<Step>)
    requires Acyclic(specs, rank) && AllExist(specs, st) && Matches(leaves, st)
    requires forall r :: r in rounds ==> Round(specs, live, leaves, r)
    requires AreVisits(leaves, more)
    ensures SettledBelow(specs, rank, live, leaves, RunRounds(specs, st, rounds), |rounds|)
    ensures SettledBelow(specs, rank, live, leaves, Run(specs, RunRounds(specs, st, rounds), more), |rounds|)
  {
    RoundsSettle(specs, rank, live, leaves, st, 0, rounds);
    VisitsSettle(specs, rank, live, leaves, RunRounds(specs, st, rounds), |rounds|, more);
  }

  /** So for these objects neither the order of reconciles nor the other statuses left over from before matter. */
  lemma {:induction false} ConvergenceIsUnique(specs: Specs, live: set<Key>, leaves: Leaves, k: Key,
                            r1: Rank, st1: Statuses, rounds1: seq<seq<Step>>,
                            r2: Rank, st2: Statuses, rounds2: seq<seq<Step>>)
    requires Acyclic(specs, r1) && AllExist(specs, st1) && Matches(leaves, st1)
    requires Acyclic(specs, r2) && AllExist(specs, st2) && Matches(leaves, st2)
    requires k in specs && Supported(specs, r1, live, leaves, k) && Supported(specs, r2, live, leaves, k)
    requires forall r :: r in rounds1 + rounds2 ==> Round(specs, live, leaves, r)
    requires r1(k) < |rounds1| && r2(k) < |rounds2|
    ensures k in RunRounds(specs, st1, rounds1) && k in RunRounds(specs, st2, rounds2)
    ensures RunRounds(specs, st1, rounds1)[k] == RunRounds(specs, st2, rounds2)[k]
  {
    assert forall r :: r in rounds1 || r in rounds2 ==> r in rounds1 + rounds2;
    Converges(specs, r1, live, leaves, st1, rounds1, []);
    Converges(specs, r2, live, leaves, st2, rounds2, []);
    assert Settled(specs, r1, leaves, RunRounds(specs, st1, rounds1), k);
    assert Settled(specs, r2, leaves, RunRounds(specs, st2, rounds2), k);
    MeaningIgnoresRank(specs, r1, r2, leaves, k);
  }

  /** If everything that can be skipped is a leaf, every object is supported. */
  lemma {:induction false} AllSupported(specs: Specs, rank: Rank, live: set<Key>, leaves: Leaves, k: Key)
    requires Acyclic(specs, rank) && k in specs && forall j :: j in specs ==> j in live || j in leaves
    ensures Supported(specs, rank, live, leaves, k)
    decreases rank(k)
  {
    forall c | c in specs[k] && !IsConfigKind(c.kind)
      ensures Resolvable(specs, rank, k, c) && Supported(specs, rank, live, leaves, Target(c, k.namespace))
    {
      assert Resolvable(specs, rank, k, c);
      AllSupported(specs, rank, live, leaves, Target(c, k.namespace));
    }
  }

  /** Above objects that are skipped from now on, such as Replications that are done: everything else converges to its
      meaning over what these have stored. With none skipped, everything converges to its full meaning. */
  lemma {:induction false} ConvergesAboveSkipped(specs: Specs, rank: Rank, skipped: set<Key>, st: Statuses,
                                                 rounds: seq<seq<Step>>, k: Key)
    requires Acyclic(specs, rank) && AllExist(specs, st) && k in specs && rank(k) < |rounds|
    requires forall r :: r in rounds ==>
      && (forall step :: step in r ==> step.Skip? || (step.Reconcile? && step.key !in skipped))
      && (forall j :: j in specs && j !in skipped ==> Reconcile(j) in r)
    ensures Settled(specs, rank, map j | j in skipped && j in st :: st[j], RunRounds(specs, st, rounds), k)
  {
    var leaves: Leaves := map j | j in skipped && j in st :: st[j];
    var live := set j | j in specs && j !in skipped;
    forall r | r in rounds ensures Round(specs, live, leaves, r) {
      forall step | step in r ensures IsVisit(leaves, step) {}
    }
    Converges(specs, rank, live, leaves, st, rounds, []);
    AllSupported(specs, rank, live, leaves, k);
  }

  // ---------------------------------------------------------------------------------------------------
  // What can be skipped: exactly when it is settled
  // ---------------------------------------------------------------------------------------------------

  /** Some of the entries of `b`, in the same order. */
  ghost predicate PartOf(a: seq<Config>, b: seq<Config>) {
    a == [] || (b != [] && ((a[0] == b[0] && PartOf(a[1..], b[1..])) || PartOf(a, b[1..])))
  }

  lemma {:induction false} PartIsNotLonger(a: seq<Config>, b: seq<Config>)
    requires PartOf(a, b)
    ensures |a| <= |b| && (|a| == |b| ==> a == b)
  {
    if a != [] {
      if a[0] == b[0] && PartOf(a[1..], b[1..]) {
        PartIsNotLonger(a[1..], b[1..]);
        assert a == [a[0]] + a[1..] && b == [b[0]] + b[1..];
      } else {
        PartIsNotLonger(a, b[1..]);
      }
    }
  }

  lemma {:induction false} PartWithin(a: seq<Config>, x: seq<Config>, b: seq<Config>)
    requires PartOf(a, b)
    ensures PartOf(a, x + b)
  {
    if x == [] {
      assert x + b == b;
    } else {
      assert (x + b)[1..] == x[1..] + b;
      PartWithin(a, x[1..], b);
    }
  }

  lemma {:induction false} PartsConcat(a: seq<Config>, b: seq<Config>, x: seq<Config>, y: seq<Config>)
    requires PartOf(a, x) && PartOf(b, y)
    ensures PartOf(a + b, x + y)
  {
    if a == [] {
      assert a + b == b;
      PartWithin(b, x, y);
    } else {
      assert (a + b)[0] == a[0] && (a + b)[1..] == a[1..] + b;
      assert (x + y)[0] == x[0] && (x + y)[1..] == x[1..] + y;
      if a[0] == x[0] && PartOf(a[1..], x[1..]) {
        PartsConcat(a[1..], b, x[1..], y);
      } else {
        PartsConcat(a, b, x[1..], y);
      }
    }
  }

  lemma {:induction false} InheritedPart(a: seq<Config>, b: seq<Config>, policy: Policy)
    requires PartOf(a, b)
    ensures PartOf(Inherited(a, policy), Inherited(b, policy))
  {
    if a != [] {
      var head := if b[0].policy == Propagate then [b[0].(policy := policy)] else [];
      if a[0] == b[0] && PartOf(a[1..], b[1..]) {
        InheritedPart(a[1..], b[1..], policy);
        PartsConcat(head, Inherited(a[1..], policy), head, Inherited(b[1..], policy)) by {
          assert PartOf(head[|head|..], head[|head|..]);
        }
      } else {
        InheritedPart(a, b[1..], policy);
        PartWithin(Inherited(a, policy), head, Inherited(b[1..], policy));
      }
    }
  }

  /** Nothing is stored that does not belong to the meaning. */
  ghost predicate Partial(specs: Specs, rank: Rank, st: Statuses)
    requires Acyclic(specs, rank)
  {
    forall k :: k in st ==> k in specs && PartOf(st[k], Meaning(specs, rank, NO_LEAVES, k))
  }

  /** What the reference `c` of `k` contributes, by the statuses and by the meanings. */
  ghost function Contribution(k: Key, c: Config, st: Statuses): seq<Config>
    requires !IsConfigKind(c.kind) ==> Target(c, k.namespace) in st
  {
    if IsConfigKind(c.kind) then [Direct(c, k.namespace)] else Inherited(st[Target(c, k.namespace)], c.policy)
  }

  ghost function FullContribution(specs: Specs, rank: Rank, k: Key, c: Config): seq<Config>
    requires Acyclic(specs, rank) && k in specs && c in specs[k]
  {
    assert Resolvable(specs, rank, k, c);
    if IsConfigKind(c.kind) then [Direct(c, k.namespace)]
    else Inherited(Meaning(specs, rank, NO_LEAVES, Target(c, k.namespace)), c.policy)
  }

  /** An object propagates all that it ever will. */
  ghost predicate PropagatesAll(specs: Specs, rank: Rank, st: Statuses, t: Key)
    requires Acyclic(specs, rank)
  {
    t in specs && t in st && Inherited(st[t], Propagate) == Inherited(Meaning(specs, rank, NO_LEAVES, t), Propagate)
  }

  /** Inheriting under any policy shows no less than what is propagated. */
  lemma {:induction false} InheritedUnder(a: seq<Config>, policy: Policy)
    ensures |Inherited(a, policy)| == |Inherited(a, Propagate)|
    ensures forall i :: 0 <= i < |Inherited(a, policy)| ==>
      && Inherited(a, policy)[i] == Inherited(a, Propagate)[i].(policy := policy)
      && Inherited(a, Propagate)[i].policy == Propagate
  {
    if a != [] { InheritedUnder(a[1..], policy); }
  }

  lemma {:induction false} InheritedAgree(a: seq<Config>, b: seq<Config>, policy: Policy)
    ensures Inherited(a, policy) == Inherited(b, policy) <==> Inherited(a, Propagate) == Inherited(b, Propagate)
  {
    InheritedUnder(a, policy);
    InheritedUnder(b, policy);
    var x, y := Inherited(a, Propagate), Inherited(b, Propagate);
    if Inherited(a, policy) == Inherited(b, policy) {
      forall i | 0 <= i < |x| ensures x[i] == y[i] {
        assert Inherited(a, policy)[i] == Inherited(b, policy)[i];
        assert x[i].(policy := policy) == y[i].(policy := policy);
      }
    }
  }

  lemma ContributionIsPart(specs: Specs, rank: Rank, st: Statuses, k: Key, c: Config)
    requires Acyclic(specs, rank) && Partial(specs, rank, st) && k in specs && c in specs[k]
    requires !IsConfigKind(c.kind) ==> Target(c, k.namespace) in st
    ensures PartOf(Contribution(k, c, st), FullContribution(specs, rank, k, c))
  {
    assert Resolvable(specs, rank, k, c);
    if IsConfigKind(c.kind) {
      assert PartOf([Direct(c, k.namespace)][1..], [Direct(c, k.namespace)][1..]);
    } else {
      var t := Target(c, k.namespace);
      InheritedPart(st[t], Meaning(specs, rank, NO_LEAVES, t), c.policy);
    }
  }

  lemma {:induction false} ResolvedIsPart(specs: Specs, rank: Rank, st: Statuses, k: Key, cs: seq<Config>)
    requires Acyclic(specs, rank) && Partial(specs, rank, st) && k in specs && forall c :: c in cs ==> c in specs[k]
    ensures Resolve(cs, k.namespace, st).Ok? ==>
      PartOf(Resolve(cs, k.namespace, st).value, MeaningOf(specs, rank, NO_LEAVES, k, cs))
    decreases |cs|
  {
    if cs != [] && Resolve(cs, k.namespace, st).Ok? {
      var c := cs[0];
      assert c in specs[k] && Resolvable(specs, rank, k, c);
      ResolvedIsPart(specs, rank, st, k, cs[1..]);
      ContributionIsPart(specs, rank, st, k, c);
      PartsConcat(Contribution(k, c, st), Resolve(cs[1..], k.namespace, st).value,
                  FullContribution(specs, rank, k, c), MeaningOf(specs, rank, NO_LEAVES, k, cs[1..]));
    }
  }

  /** From empty statuses, over any run, creations, deletions and skips included: what is stored is always a part of
      the recursive meaning, in its order. */
  lemma {:induction false} NothingElseIsStored(specs: Specs, rank: Rank, st: Statuses, steps: seq<Step>)
    requires Acyclic(specs, rank) && Partial(specs, rank, st)
    ensures Partial(specs, rank, Run(specs, st, steps))
    decreases |steps|
  {
    if steps != [] {
      var k := steps[0].key;
      if k in specs { ResolvedIsPart(specs, rank, st, k, specs[k]); }
      NothingElseIsStored(specs, rank, Apply(specs, st, steps[0]), steps[1..]);
    }
  }

  lemma {:induction false} ResolvesFullyIff(specs: Specs, rank: Rank, st: Statuses, k: Key, cs: seq<Config>)
    requires Acyclic(specs, rank) && Partial(specs, rank, st)
    requires k in specs && forall c :: c in cs ==> c in specs[k]
    requires forall c :: c in cs && !IsConfigKind(c.kind) ==> Target(c, k.namespace) in st
    ensures Resolve(cs, k.namespace, st).Ok?
    ensures Resolve(cs, k.namespace, st).value == MeaningOf(specs, rank, NO_LEAVES, k, cs) <==>
      forall c :: c in cs && !IsConfigKind(c.kind) ==> PropagatesAll(specs, rank, st, Target(c, k.namespace))
    decreases |cs|
  {
    if cs != [] {
      var c := cs[0];
      assert c in specs[k] && Resolvable(specs, rank, k, c);
      ResolvesFullyIff(specs, rank, st, k, cs[1..]);
      var a, b := Contribution(k, c, st), Resolve(cs[1..], k.namespace, st).value;
      var x, y := FullContribution(specs, rank, k, c), MeaningOf(specs, rank, NO_LEAVES, k, cs[1..]);
      ContributionIsPart(specs, rank, st, k, c);
      ResolvedIsPart(specs, rank, st, k, cs[1..]);
      SumsAgree(a, b, x, y);
      if !IsConfigKind(c.kind) {
        var t := Target(c, k.namespace);
        InheritedAgree(st[t], Meaning(specs, rank, NO_LEAVES, t), c.policy);
      }
    }
  }

  lemma {:induction false} SumsAgree(a: seq<Config>, b: seq<Config>, x: seq<Config>, y: seq<Config>)
    requires PartOf(a, x) && PartOf(b, y)
    ensures a + b == x + y <==> a == x && b == y
  {
    PartIsNotLonger(a, x);
    PartIsNotLonger(b, y);
    if a + b == x + y {
      assert |a| + |b| == |x| + |y|;
    }
  }

  lemma {:induction false} UnlessReconciledUnchanged(specs: Specs, st: Statuses, steps: seq<Step>, k: Key)
    requires k in st && forall step :: step in steps ==> step != Reconcile(k) && step != Delete(k)
    ensures k in Run(specs, st, steps) && Run(specs, st, steps)[k] == st[k]
    decreases |steps|
  {
    if steps != [] {
      assert steps[0] in steps && forall step :: step in steps[1..] ==> step in steps;
      UnlessReconciledUnchanged(specs, Apply(specs, st, steps[0]), steps[1..], k);
    }
  }

  /** For any object, in particular a Replication, over any run from the empty cluster: if its referents existed at its
      last reconcile that was not skipped, it is settled exactly if every one of them already propagated all that it
      ever will. */
  lemma {:induction false} SettledIffReferentsWereReady(specs: Specs, rank: Rank, before: seq<Step>, k: Key,
      after: seq<Step>)
    requires Acyclic(specs, rank) && k in specs && k in Run(specs, map[], before)
    requires forall t :: RefersTo(specs, k, t) ==> t in Run(specs, map[], before)
    requires forall step :: step in after ==> step != Reconcile(k) && step != Delete(k)
    ensures Settled(specs, rank, NO_LEAVES, Run(specs, map[], before + [Reconcile(k)] + after), k) <==>
      forall t :: RefersTo(specs, k, t) ==> PropagatesAll(specs, rank, Run(specs, map[], before), t)
  {
    var st := Run(specs, map[], before);
    NothingElseIsStored(specs, rank, map[], before);
    forall c | c in specs[k] && !IsConfigKind(c.kind) ensures RefersTo(specs, k, Target(c, k.namespace)) {}
    ResolvesFullyIff(specs, rank, st, k, specs[k]);
    RunConcat(specs, map[], before + [Reconcile(k)], after);
    RunConcat(specs, map[], before, [Reconcile(k)]);
    var st' := Apply(specs, st, Reconcile(k));
    assert [Reconcile(k)][1..] == [];
    assert Run(specs, st, [Reconcile(k)]) == Run(specs, st', []) == st';
    UnlessReconciledUnchanged(specs, st', after, k);
  }

  /** Referents that are settled suffice. */
  lemma SettledPropagatesAll(specs: Specs, rank: Rank, st: Statuses, t: Key)
    requires Acyclic(specs, rank) && Settled(specs, rank, NO_LEAVES, st, t)
    ensures PropagatesAll(specs, rank, st, t)
  {}

  lemma {:induction false} MeaningOfOne(specs: Specs, rank: Rank, k: Key, c: Config)
    requires Acyclic(specs, rank) && k in specs && specs[k] == [c] && IsConfigKind(c.kind)
    ensures Meaning(specs, rank, NO_LEAVES, k) == [Direct(c, k.namespace)]
    ensures Inherited(Meaning(specs, rank, NO_LEAVES, k), Propagate) ==
      if c.policy == Propagate then Meaning(specs, rank, NO_LEAVES, k) else []
  {
    assert [c][0] == c && [c][1..] == [];
    assert MeaningOf(specs, rank, NO_LEAVES, k, [c]) == [Direct(c, k.namespace)] + MeaningOf(specs, rank, NO_LEAVES, k, [c][1..]);
    assert [Direct(c, k.namespace)][1..] == [];
  }

  lemma {:induction false} CreateBoth(specs: Specs, r: Key, x: Key)
    requires specs.Keys == {x, r} && r != x
    ensures Run(specs, map[], [Create(x), Create(r)]) == map[x := [], r := []]
  {
    var steps := [Create(x), Create(r)];
    var st1 := Apply(specs, map[], steps[0]);
    var st2 := Apply(specs, st1, steps[1]);
    assert steps[1..][1..] == [];
    assert Run(specs, st2, steps[1..][1..]) == st2;
    assert Run(specs, st1, steps[1..]) == st2;
    assert st2 == map[x := [], r := []];
  }

  lemma {:induction false} RunOne(specs: Specs, st: Statuses, step: Step)
    ensures Run(specs, st, [step]) == Apply(specs, st, step)
  {
    assert [step][1..] == [];
    assert Run(specs, Apply(specs, st, step), []) == Apply(specs, st, step);
  }

  /** The skip makes the order matter: a Replication that transfers before the object it refers to has stored its
      configuration keeps an empty one for as long as it is skipped; the other way round it is settled. */
  lemma {:induction false} SkippedReplicationStaysBehind(specs: Specs, rank: Rank, r: Key, x: Key,
      secret: Config, ref: Config, more: seq<Step>)
    requires specs == map[x := [secret], r := [ref]] && r != x && Acyclic(specs, rank)
    requires secret.kind == "Secret" && secret.policy == Propagate
    requires r.kind == "Replication" && !IsConfigKind(ref.kind) && Target(ref, r.namespace) == x
    requires forall step :: step in more ==> step != Reconcile(r) && step != Delete(r)
    ensures var both := [Create(x), Create(r)];
      && !Settled(specs, rank, NO_LEAVES, Run(specs, map[], both + [Reconcile(r)] + ([Reconcile(x)] + more)), r)
      && Settled(specs, rank, NO_LEAVES, Run(specs, map[], (both + [Reconcile(x)]) + [Reconcile(r)] + more), r)
  {
    var both, st: Statuses := [Create(x), Create(r)], map[x := [], r := []];
    CreateBoth(specs, r, x);
    assert secret in specs[x] && ref in specs[r] && RefersTo(specs, r, x);
    forall t | RefersTo(specs, r, t) ensures t == x {}
    MeaningOfOne(specs, rank, x, secret);
    assert !PropagatesAll(specs, rank, st, x);
    SettledIffReferentsWereReady(specs, rank, both, r, [Reconcile(x)] + more);
    var stored := Apply(specs, st, Reconcile(x));
    ReconcileSettles(specs, rank, NO_LEAVES, st, x);
    SettledPropagatesAll(specs, rank, stored, x);
    RunConcat(specs, map[], both, [Reconcile(x)]);
    RunOne(specs, st, Reconcile(x));
    SettledIffReferentsWereReady(specs, rank, both + [Reconcile(x)], r, more);
  }

  /** A referent need not be settled for that: one that propagates nothing is as good before its first reconcile. */
  lemma {:induction false} UnsettledReferentCanSuffice(specs: Specs, rank: Rank, r: Key, x: Key, secret: Config,
      ref: Config)
    requires specs == map[x := [secret], r := [ref]] && r != x && Acyclic(specs, rank)
    requires secret.kind == "Secret" && secret.policy == DoNotPropagate
    requires !IsConfigKind(ref.kind) && Target(ref, r.namespace) == x
    ensures var st := Run(specs, map[], [Create(x), Create(r)] + [Reconcile(r)] + []);
      !Settled(specs, rank, NO_LEAVES, st, x) && Settled(specs, rank, NO_LEAVES, st, r)
  {
    var both, st: Statuses := [Create(x), Create(r)], map[x := [], r := []];
    CreateBoth(specs, r, x);
    assert secret in specs[x] && ref in specs[r];
    forall t | RefersTo(specs, r, t) ensures t == x {}
    MeaningOfOne(specs, rank, x, secret);
    assert PropagatesAll(specs, rank, st, x);
    SettledIffReferentsWereReady(specs, rank, both, r, []);
    assert both + [Reconcile(r)] + [] == both + [Reconcile(r)];
    RunConcat(specs, map[], both, [Reconcile(r)]);
    UnlessReconciledUnchanged(specs, st, [Reconcile(r)], x);
  }
}
