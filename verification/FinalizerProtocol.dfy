/** The readiness and finalizer protocol between Repository, Component, Resource and Deployer.

    A referrer becomes Ready only after it has read its referent as Ready and not being deleted; a referent
    drops its finalizer only after it has listed its referrers and found none. Reading and marking, and listing
    and dropping, are separate API calls, so any steps of users and of other reconciles may come in between.
    The same holds for a reconcile's view of its own object, which it fetched before. The protocol is therefore a
    state machine over single API calls, and `Run` executes any interleaving. */
module FinalizerProtocol {

  datatype Kind = Repository | Component | Resource | Deployer

  datatype Key = Key(kind: Kind, ns: string, name: string)

  /** A reference in a spec. Only a Deployer's reference can name a namespace. */
  datatype Ref = Ref(ns: string, name: string)

  /** `own` is the finalizer of the controller in charge, `foreign` stands for any other finalizer.
      `everReady` and `via` are history: whether the object has ever become Ready, and the identity of the
      referent it had read when it last did. */
  datatype Object = Object(uid: nat, ref: Ref, suspended: bool, deleting: bool, own: bool, foreign: bool,
                           ready: bool, everReady: bool, via: nat)

  /** What a reconcile in flight has learnt about one object identity. An observation is never withdrawn,
      so a reconcile may act on it arbitrarily late. */
  datatype Observation =
    | Unadopted(key: Key, uid: nat)                    // not being deleted, finalizer missing
    | Proceeding(key: Key, uid: nat)                   // neither deleted nor suspended, finalizer in place
    | Leaving(key: Key, uid: nat)                      // being deleted, finalizer in place
    | ReferentReady(key: Key, uid: nat, refUid: nat)   // proceeding, and the referent was Ready and not being deleted
    | NoReferrers(key: Key, uid: nat)                  // leaving, and the referrer list was empty

  datatype State = State(objects: map<Key, Object>, seen: set<Observation>, nextUid: nat)

  datatype Step =
    | Create(key: Key, ref: Ref, foreign: bool)
    | Delete(key: Key)
    | Suspend(key: Key, on: bool)
    | AddForeign(key: Key)
    | RemoveForeign(key: Key)
    | Fetch(key: Key)
    | AddFinalizer(key: Key, uid: nat)
    | ReadReferent(key: Key, uid: nat)
    | MarkReady(key: Key, uid: nat, refUid: nat)
    | MarkNotReady(key: Key)
    | ListReferrers(key: Key, uid: nat)
    | DropFinalizer(key: Key, uid: nat)
    | Untracked(key: Key)

  const Init := State(map[], {}, 0)

  // ---------------------------------------------------------------------------------------------------
  // References and indexes
  // ---------------------------------------------------------------------------------------------------

  predicate ValidName(s: string) { '/' !in s }

  /** Deployers are cluster scoped, the other kinds are namespaced. */
  predicate ValidKey(k: Key) {
    && ValidName(k.ns) && ValidName(k.name)
    && (k.kind == Deployer <==> k.ns == "")
  }

  predicate HasReferent(k: Key) { k.kind != Repository }

  /** The object that the reconciler of `k` fetches as its referent. */
  function Referent(k: Key, ref: Ref): Key
    requires HasReferent(k)
  {
    match k.kind
    case Component => Key(Repository, k.ns, ref.name)
    case Resource => Key(Component, k.ns, ref.name)
    case Deployer => Key(Resource, if ref.ns == "" then k.ns else ref.ns, ref.name)
  }

  /** The index entry under which a Deployer is filed, and the value a Resource looks up. */
  function DeployerIndex(ref: Ref): string { ref.ns + "/" + ref.name }
  function NamespacedName(k: Key): string { k.ns + "/" + k.name }

  /** Whether the field selector of `r`'s deletion branch returns `a`. No list is limited to a namespace. */
  predicate Lists(r: Key, a: Key, ref: Ref) {
    match r.kind
    case Repository => a.kind == Component && ref.name == r.name
    case Component => a.kind == Resource && ref.name == r.name
    case Resource => a.kind == Deployer && DeployerIndex(ref) == NamespacedName(r)
    case Deployer => false
  }

  predicate Referenced(s: State, r: Key) {
    exists a :: a in s.objects && Lists(r, a, s.objects[a].ref)
  }

  // ---------------------------------------------------------------------------------------------------
  // Single API calls
  // ---------------------------------------------------------------------------------------------------

  /** An update as the API server stores it: an object being deleted disappears with its last finalizer. */
  function Put(s: State, k: Key, o: Object): State {
    if o.deleting && !o.own && !o.foreign then s.(objects := s.objects - {k}) else s.(objects := s.objects[k := o])
  }

  /** What a reconcile sees when it fetches its object, in the order in which each reconciler checks. */
  function Seen(k: Key, o: Object): set<Observation> {
    if (k.kind == Resource || k.kind == Deployer) && o.suspended then {}
    else if o.deleting then (if k.kind != Deployer && o.own then {Leaving(k, o.uid)} else {})
    else if k.kind != Deployer && !o.own then {Unadopted(k, o.uid)}
    else if o.suspended then {}
    else {Proceeding(k, o.uid)}
  }

  /** The referent exists, is Ready and not being deleted. A Repository has none. */
  predicate ReferentUsable(s: State, k: Key)
    requires k in s.objects
  {
    HasReferent(k) ==>
      var r := Referent(k, s.objects[k].ref);
      r in s.objects && !s.objects[r].deleting && s.objects[r].ready
  }

  /** The identity read as referent; a Repository is validated against its registry instead. */
  function ReferentUid(s: State, k: Key): nat
    requires k in s.objects && ReferentUsable(s, k)
  {
    if HasReferent(k) then s.objects[Referent(k, s.objects[k].ref)].uid else 0
  }

  predicate Identified(s: State, k: Key, uid: nat) { k in s.objects && s.objects[k].uid == uid }

  /** A step whose guard fails leaves the state unchanged. */
  function Apply(s: State, step: Step): State {
    match step
    case Create(k, ref, foreign) =>
      if k in s.objects || !ValidKey(k) then s
      else State(s.objects[k := Object(s.nextUid, ref, false, false, false, foreign, false, false, 0)], s.seen, s.nextUid + 1)
    case MarkReady(k, uid, refUid) =>
      if Identified(s, k, uid) && ReferentReady(k, uid, refUid) in s.seen then
        var o := s.objects[k];
        // A Deployer gets its finalizer in the same patch; no finalizer can be added during deletion.
        var own := if k.kind == Deployer && !o.deleting then true else o.own;
        Put(s, k, o.(own := own, ready := true, everReady := true, via := refUid))
      else s
    case AddFinalizer(k, uid) =>
      if Identified(s, k, uid) && Unadopted(k, uid) in s.seen && !s.objects[k].deleting
      then Put(s, k, s.objects[k].(own := true)) else s
    case DropFinalizer(k, uid) =>
      if Identified(s, k, uid) && NoReferrers(k, uid) in s.seen then Put(s, k, s.objects[k].(own := false)) else s
    case ReadReferent(k, uid) =>
      if Identified(s, k, uid) && Proceeding(k, uid) in s.seen && ReferentUsable(s, k)
      then s.(seen := s.seen + {ReferentReady(k, uid, ReferentUid(s, k))}) else s
    case ListReferrers(k, uid) =>
      if Identified(s, k, uid) && Leaving(k, uid) in s.seen && !Referenced(s, k)
      then s.(seen := s.seen + {NoReferrers(k, uid)}) else s
    case _ =>
      if step.key !in s.objects then s else ApplyAt(s, step, s.objects[step.key])
  }

  function ApplyAt(s: State, step: Step, o: Object): State
    requires step.key in s.objects && s.objects[step.key] == o
  {
    match step
    case Delete(k) => Put(s, k, o.(deleting := true))
    case Suspend(k, on) => Put(s, k, o.(suspended := on))
    case AddForeign(k) => if o.deleting then s else Put(s, k, o.(foreign := true))
    case RemoveForeign(k) => Put(s, k, o.(foreign := false))
    case Fetch(k) => s.(seen := s.seen + Seen(k, o))
    case MarkNotReady(k) => Put(s, k, o.(ready := false))
    case Untracked(k) =>
      if k.kind == Deployer && o.deleting then Put(s, k, o.(own := false)) else s
    case _ => s
  }

  function Run(s: State, steps: seq<Step>): State
    decreases |steps|
  {
    if steps == [] then s else Run(Apply(s, steps[0]), steps[1..])
  }

  /** What users do: a new object is neither adopted nor Ready nor being deleted or suspended; a deletion removes an object
      without finalizers and marks any other; suspension is switched on and off; and all other objects stay. */
  lemma UserSteps(s: State, step: Step)
    requires step.Create? || step.Delete? || step.Suspend?
    ensures var k, s' := step.key, Apply(s, step);
      && s'.objects - {k} == s.objects - {k} && s'.seen == s.seen
      && (step.Create? && k !in s.objects && ValidKey(k) ==>
            k in s'.objects && var o := s'.objects[k];
            && o.uid == s.nextUid && o.ref == step.ref && o.foreign == step.foreign
            && !o.own && !o.ready && !o.everReady && !o.deleting && !o.suspended)
      && (step.Delete? && k in s.objects && !s.objects[k].own && !s.objects[k].foreign ==> k !in s'.objects)
      && (step.Delete? && k in s.objects && (s.objects[k].own || s.objects[k].foreign) ==>
            k in s'.objects && s'.objects[k] == s.objects[k].(deleting := true))
      && (step.Suspend? && k in s.objects && k in s'.objects ==> s'.objects[k] == s.objects[k].(suspended := step.on))
  {}

  // ---------------------------------------------------------------------------------------------------
  // The invariant
  // ---------------------------------------------------------------------------------------------------

  /** `a` has become Ready, or may still do so, on the strength of referent identity `u`. */
  ghost predicate Bound(s: State, a: Key, u: nat) {
    HasReferent(a) && a in s.objects && ReferentReady(a, s.objects[a].uid, u) in s.seen
  }

  ghost predicate ValidKeys(s: State) {
    forall k :: k in s.objects ==> ValidKey(k) && s.objects[k].uid < s.nextUid
  }

  ghost predicate ObservationsPast(s: State) {
    forall obs :: obs in s.seen ==> obs.uid < s.nextUid
  }

  /** An object that a reconcile has seen proceeding carries its finalizer until it is being deleted. */
  ghost predicate Guarded(s: State) {
    && (forall k :: k in s.objects && k.kind != Deployer && !s.objects[k].deleting ==>
          Proceeding(k, s.objects[k].uid) in s.seen ==> s.objects[k].own)
    && (forall k, uid, u :: ReferentReady(k, uid, u) in s.seen ==> Proceeding(k, uid) in s.seen)
  }

  /** Deletion is final. */
  ghost predicate LeavingStays(s: State) {
    forall k, uid :: Leaving(k, uid) in s.seen && Identified(s, k, uid) ==> s.objects[k].deleting && k.kind != Deployer
  }

  /** Readiness is part of the history, and the history rests on an observation. */
  ghost predicate HistoryObserved(s: State) {
    forall k :: k in s.objects ==>
      && (s.objects[k].ready ==> s.objects[k].everReady)
      && (s.objects[k].everReady ==> ReferentReady(k, s.objects[k].uid, s.objects[k].via) in s.seen)
  }

  /** The referent a referrer relies on exists under the identity that was read, and still has its finalizer. */
  ghost predicate ReferentHeld(s: State, a: Key, u: nat)
    requires a in s.objects && HasReferent(a)
  {
    var r := Referent(a, s.objects[a].ref);
    r in s.objects && s.objects[r].uid == u && s.objects[r].everReady && s.objects[r].own
  }

  ghost predicate ReferentsHeld(s: State) {
    forall a, u :: Bound(s, a, u) ==> ReferentHeld(s, a, u)
  }

  /** An empty referrer list stays valid: the referent is being deleted, and nobody relies on it. */
  ghost predicate EmptyListsStand(s: State) {
    forall r, uid :: NoReferrers(r, uid) in s.seen && Identified(s, r, uid) ==>
      && s.objects[r].deleting && r.kind != Deployer
      && forall a, u :: Bound(s, a, u) ==> Referent(a, s.objects[a].ref) != r
  }

  ghost predicate Inv(s: State) {
    && ValidKeys(s) && ObservationsPast(s) && Guarded(s) && LeavingStays(s) && HistoryObserved(s)
    && ReferentsHeld(s) && EmptyListsStand(s)
  }

  // ---------------------------------------------------------------------------------------------------
  // Lists find every referrer
  // ---------------------------------------------------------------------------------------------------

  lemma FirstSlash(a: string, b: string)
    requires ValidName(a)
    ensures (a + "/" + b)[|a|] == '/'
    ensures forall i :: 0 <= i < |a| ==> (a + "/" + b)[i] == a[i] && a[i] != '/'
  {}

  lemma SplitAtSlash(a1: string, b1: string, a2: string, b2: string)
    requires ValidName(a1) && ValidName(a2)
    requires a1 + "/" + b1 == a2 + "/" + b2
    ensures a1 == a2 && b1 == b2
  {
    FirstSlash(a1, b1);
    FirstSlash(a2, b2);
    var s := a1 + "/" + b1;
    assert |a1| == |a2|;
    assert a1 == s[..|a1|] == a2;
    assert b1 == s[|a1| + 1..] == b2;
  }

  /** The raw index entry of a Deployer agrees with the reference its reconciler resolves exactly when the
      reference names a namespace or the Deployer itself has none, as the cluster scope guarantees. */
  lemma DeployerIndexAgrees(k: Key, ref: Ref)
    requires k.kind == Deployer
    ensures DeployerIndex(ref) == NamespacedName(Referent(k, ref)) <==> ref.ns != "" || k.ns == ""
  {
    if ref.ns == "" && DeployerIndex(ref) == NamespacedName(Referent(k, ref)) {
      assert |DeployerIndex(ref)| == 1 + |ref.name|;
      assert |NamespacedName(Referent(k, ref))| == |k.ns| + 1 + |ref.name|;
    }
  }

  /** Exactly: a list returns a Deployer if and only if the Resource is the one its reconciler resolves; the
      lists of Repositories and Components may return more, as they ignore the namespace, but never less. */
  lemma ListsEveryReferrer(a: Key, ref: Ref, r: Key)
    requires ValidKey(a) && ValidKey(r) && HasReferent(a)
    ensures Referent(a, ref) == r ==> Lists(r, a, ref)
    ensures a.kind == Deployer && r.kind == Resource && ValidName(ref.ns) && Lists(r, a, ref) ==> Referent(a, ref) == r
  {
    if a.kind == Deployer {
      DeployerIndexAgrees(a, ref);
      if r.kind == Resource && ValidName(ref.ns) && Lists(r, a, ref) {
        SplitAtSlash(ref.ns, ref.name, r.ns, r.name);
      }
    }
  }

  /** Within a namespace the lists of Repositories and Components are exact, too. */
  lemma ListsAreExactWithinNamespace(a: Key, ref: Ref, r: Key)
    requires HasReferent(a) && a.kind != Deployer && a.ns == r.ns
    ensures Lists(r, a, ref) <==> Referent(a, ref) == r
  {}

  // ---------------------------------------------------------------------------------------------------
  // Preservation
  // ---------------------------------------------------------------------------------------------------

  /** An update that keeps identity, reference and a true history, and does not take the finalizer away. */
  ghost predicate Harmless(s: State, k: Key, o: Object, o': Object) {
    && o'.uid == o.uid && o'.ref == o.ref
    && (o.deleting ==> o'.deleting) && (k.kind != Deployer ==> (o.own ==> o'.own))
    && (o.everReady ==> o'.everReady) && (o'.ready ==> o'.everReady)
    && (o'.everReady ==> ReferentReady(k, o'.uid, o'.via) in s.seen)
  }

  lemma PutHarmless(s: State, k: Key, o': Object)
    requires Inv(s) && k in s.objects && Harmless(s, k, s.objects[k], o')
    ensures Inv(Put(s, k, o'))
  {
    var s' := Put(s, k, o');
    forall a, u | Bound(s', a, u) ensures Bound(s, a, u) && ReferentHeld(s', a, u) {
      assert Bound(s, a, u);
      assert ReferentHeld(s, a, u);
    }
    forall r, uid | NoReferrers(r, uid) in s'.seen && Identified(s', r, uid)
      ensures Identified(s, r, uid)
    {}
  }

  lemma CreatePreserves(s: State, k: Key, ref: Ref, foreign: bool)
    requires Inv(s)
    ensures Inv(Apply(s, Create(k, ref, foreign)))
  {
    var s' := Apply(s, Create(k, ref, foreign));
    if k !in s.objects && ValidKey(k) {
      forall a, u | Bound(s', a, u) ensures a != k && Bound(s, a, u) && ReferentHeld(s', a, u) {
        assert Bound(s, a, u);
        assert ReferentHeld(s, a, u);
      }
      forall r, uid | NoReferrers(r, uid) in s'.seen && Identified(s', r, uid)
        ensures r != k && Identified(s, r, uid)
      {
        var obs := NoReferrers(r, uid);
        assert obs in s.seen && obs.uid < s.nextUid;
      }
    }
  }

  lemma ReadReferentPreserves(s: State, k: Key, uid: nat)
    requires Inv(s)
    ensures Inv(Apply(s, ReadReferent(k, uid)))
  {
    var s' := Apply(s, ReadReferent(k, uid));
    if s' != s {
      assert s'.objects == s.objects;
      forall a, u | Bound(s', a, u) ensures ReferentHeld(s', a, u) {
        if Bound(s, a, u) {
          assert ReferentHeld(s, a, u);
        }
      }
      forall r, i | NoReferrers(r, i) in s'.seen && Identified(s', r, i)
        ensures s'.objects[r].deleting && r.kind != Deployer
        ensures forall a, u :: Bound(s', a, u) ==> Referent(a, s'.objects[a].ref) != r
      {
        assert NoReferrers(r, i) in s.seen && Identified(s, r, i);
        forall a, u | Bound(s', a, u) ensures Referent(a, s'.objects[a].ref) != r {
          if !Bound(s, a, u) {
            assert a == k;
          }
        }
      }
    }
  }

  lemma ListReferrersPreserves(s: State, k: Key, uid: nat)
    requires Inv(s)
    ensures Inv(Apply(s, ListReferrers(k, uid)))
  {
    var s' := Apply(s, ListReferrers(k, uid));
    if s' != s {
      forall a, u | Bound(s', a, u) ensures Bound(s, a, u) && ReferentHeld(s', a, u) {
        assert Bound(s, a, u);
        assert ReferentHeld(s, a, u);
      }
      forall a, u | Bound(s', a, u) ensures Referent(a, s'.objects[a].ref) != k {
        assert Bound(s, a, u);
        if Referent(a, s.objects[a].ref) == k {
          ListsEveryReferrer(a, s.objects[a].ref, k);
        }
      }
      forall r, i | NoReferrers(r, i) in s'.seen && Identified(s', r, i) && NoReferrers(r, i) in s.seen
        ensures Identified(s, r, i)
      {}
    }
  }

  lemma HeldElsewhere(s: State, k: Key, o': Object, a: Key, u: nat)
    requires k in s.objects && o'.uid == s.objects[k].uid && o'.ref == s.objects[k].ref
    requires Bound(Put(s, k, o'), a, u) && ReferentHeld(s, a, u) && Referent(a, s.objects[a].ref) != k
    ensures ReferentHeld(Put(s, k, o'), a, u)
  {}

  lemma DropFinalizerPreserves(s: State, k: Key, uid: nat)
    requires Inv(s)
    ensures Inv(Apply(s, DropFinalizer(k, uid)))
  {
    var s' := Apply(s, DropFinalizer(k, uid));
    if Identified(s, k, uid) && NoReferrers(k, uid) in s.seen {
      var o' := s.objects[k].(own := false);
      assert s.objects[k].deleting && s' == Put(s, k, o');
      forall a, u | Bound(s', a, u) ensures Bound(s, a, u) && ReferentHeld(s', a, u) {
        assert Bound(s, a, u);
        HeldElsewhere(s, k, o', a, u);
      }
      forall r, i | NoReferrers(r, i) in s'.seen && Identified(s', r, i) ensures Identified(s, r, i) {}
    }
  }

  lemma FetchPreserves(s: State, k: Key)
    requires Inv(s)
    ensures Inv(Apply(s, Fetch(k)))
  {
    var s' := Apply(s, Fetch(k));
    forall a, u | Bound(s', a, u) ensures Bound(s, a, u) && ReferentHeld(s', a, u) {
      assert Bound(s, a, u);
      assert ReferentHeld(s, a, u);
    }
    forall r, i | NoReferrers(r, i) in s'.seen && Identified(s', r, i)
      ensures NoReferrers(r, i) in s.seen && Identified(s, r, i)
    {}
  }

  lemma MarkReadyPreserves(s: State, k: Key, uid: nat, refUid: nat)
    requires Inv(s)
    ensures Inv(Apply(s, MarkReady(k, uid, refUid)))
  {
    if Identified(s, k, uid) && ReferentReady(k, uid, refUid) in s.seen {
      var o := s.objects[k];
      var own := if k.kind == Deployer && !o.deleting then true else o.own;
      PutHarmless(s, k, o.(own := own, ready := true, everReady := true, via := refUid));
    }
  }

  /** The steps that change one flag of an object. */
  lemma FlagPreserves(s: State, step: Step)
    requires Inv(s) && step.key in s.objects
    requires step.Delete? || step.Suspend? || step.AddForeign? || step.RemoveForeign? || step.MarkNotReady? || step.Untracked?
    ensures Inv(Apply(s, step))
  {
    var k := step.key;
    var o := s.objects[k];
    match step
    case Delete(_) => PutHarmless(s, k, o.(deleting := true));
    case Suspend(_, on) => PutHarmless(s, k, o.(suspended := on));
    case AddForeign(_) => PutHarmless(s, k, o.(foreign := true));
    case RemoveForeign(_) => PutHarmless(s, k, o.(foreign := false));
    case MarkNotReady(_) => PutHarmless(s, k, o.(ready := false));
    case Untracked(_) => if k.kind == Deployer { PutHarmless(s, k, o.(own := false)); }
  }

  lemma StepPreserves(s: State, step: Step)
    requires Inv(s)
    ensures Inv(Apply(s, step))
  {
    match step
    case Create(k, ref, foreign) => CreatePreserves(s, k, ref, foreign);
    case MarkReady(k, uid, refUid) => MarkReadyPreserves(s, k, uid, refUid);
    case DropFinalizer(k, uid) => DropFinalizerPreserves(s, k, uid);
    case ReadReferent(k, uid) => ReadReferentPreserves(s, k, uid);
    case ListReferrers(k, uid) => ListReferrersPreserves(s, k, uid);
    case Fetch(k) => FetchPreserves(s, k);
    case AddFinalizer(k, uid) => if k in s.objects { PutHarmless(s, k, s.objects[k].(own := true)); }
    case _ => if step.key in s.objects { FlagPreserves(s, step); }
  }

  lemma {:induction false} RunPreserves(s: State, steps: seq<Step>)
    requires Inv(s)
    ensures Inv(Run(s, steps))
    decreases |steps|
  {
    if steps != [] {
      StepPreserves(s, steps[0]);
      RunPreserves(Apply(s, steps[0]), steps[1..]);
    }
  }

  // ---------------------------------------------------------------------------------------------------
  // Main results
  // ---------------------------------------------------------------------------------------------------

  /** In every run, an existing object that has ever become Ready still has the very referent it became Ready on. */
  lemma {:induction false} ReadyReferrerKeepsReferent(steps: seq<Step>, a: Key)
    ensures var s := Run(Init, steps);
      a in s.objects && HasReferent(a) && s.objects[a].everReady ==>
        var r := Referent(a, s.objects[a].ref);
        && r in s.objects && s.objects[r].uid == s.objects[a].via && s.objects[r].everReady && s.objects[r].own
  {
    RunPreserves(Init, steps);
    var s := Run(Init, steps);
    if a in s.objects && HasReferent(a) && s.objects[a].everReady {
      assert Bound(s, a, s.objects[a].via);
    }
  }

  /** Hence its whole chain down to the Repository exists. */
  ghost predicate ChainExists(s: State, a: Key)
    decreases a.kind == Deployer, a.kind == Resource, a.kind == Component
  {
    a in s.objects && (HasReferent(a) ==> ChainExists(s, Referent(a, s.objects[a].ref)))
  }

  lemma ReadyHasReferent(s: State, a: Key)
    requires Inv(s)
    ensures a in s.objects && HasReferent(a) && s.objects[a].everReady ==>
      Identified(s, Referent(a, s.objects[a].ref), s.objects[a].via)
  {
    if a in s.objects && HasReferent(a) && s.objects[a].everReady {
      assert Bound(s, a, s.objects[a].via);
    }
  }

  lemma {:induction false} ReadyChainExists(steps: seq<Step>, a: Key)
    requires var s := Run(Init, steps); a in s.objects && s.objects[a].everReady
    ensures ChainExists(Run(Init, steps), a)
    decreases a.kind == Deployer, a.kind == Resource, a.kind == Component
  {
    if HasReferent(a) {
      ReadyReferrerKeepsReferent(steps, a);
      ReadyChainExists(steps, Referent(a, Run(Init, steps).objects[a].ref));
    }
  }

  /** The chain by name: a Deployer's reference may name a namespace, all others stay in their own. */
  lemma {:induction false} ReadyDeployerHasItsChain(steps: seq<Step>, d: Key)
    requires var s := Run(Init, steps); d.kind == Deployer && d in s.objects && s.objects[d].everReady
    ensures var objects := Run(Init, steps).objects;
      var ns := if objects[d].ref.ns == "" then d.ns else objects[d].ref.ns;
      var resource := Key(Resource, ns, objects[d].ref.name);
      && resource in objects
      && var component := Key(Component, ns, objects[resource].ref.name);
         component in objects && Key(Repository, ns, objects[component].ref.name) in objects
  {
    ReadyReferrerKeepsReferent(steps, d);
    var objects := Run(Init, steps).objects;
    var resource := Referent(d, objects[d].ref);
    ReadyReferrerKeepsReferent(steps, resource);
    ReadyReferrerKeepsReferent(steps, Referent(resource, objects[resource].ref));
  }

  /** While a referrer that has been Ready exists, nothing anybody does removes or replaces its referent. */
  lemma {:induction false} ReferentSurvives(s: State, more: seq<Step>, a: Key)
    requires Inv(s) && a in s.objects && HasReferent(a) && s.objects[a].everReady
    requires Identified(Run(s, more), a, s.objects[a].uid)
    ensures var r := Referent(a, s.objects[a].ref);
      r in s.objects && Identified(Run(s, more), r, s.objects[r].uid)
  {
    var s' := Run(s, more);
    RunPreserves(s, more);
    SeenGrows(s, more);
    ReferenceFixed(s, more, a, s.objects[a].uid, s.objects[a].ref);
    assert Bound(s, a, s.objects[a].via) && Bound(s', a, s.objects[a].via);
    assert ReferentHeld(s, a, s.objects[a].via) && ReferentHeld(s', a, s.objects[a].via);
  }

  // ---------------------------------------------------------------------------------------------------
  // Deployers keep their finalizer
  // ---------------------------------------------------------------------------------------------------

  /** A Deployer that has ever become Ready carries its finalizer until it is being deleted. */
  ghost predicate DeployersOwn(s: State) {
    forall d :: d in s.objects && d.kind == Deployer && s.objects[d].everReady && !s.objects[d].deleting ==> s.objects[d].own
  }

  lemma StepKeepsDeployers(s: State, step: Step)
    requires Inv(s) && DeployersOwn(s)
    ensures DeployersOwn(Apply(s, step))
  {
    var s' := Apply(s, step);
    if step.DropFinalizer? && Identified(s, step.key, step.uid) && NoReferrers(step.key, step.uid) in s.seen {
      assert step.key.kind != Deployer;
    }
    forall d | d in s'.objects && d.kind == Deployer && s'.objects[d].everReady && !s'.objects[d].deleting
      ensures s'.objects[d].own
    {
      StepKeepsDeployer(s, step, d);
    }
  }

  lemma StepKeepsDeployer(s: State, step: Step, d: Key)
    requires d.kind == Deployer && DeployersOwn(s) && d in Apply(s, step).objects
    requires step.DropFinalizer? && step.key == d ==> Apply(s, step) == s
    ensures var o := Apply(s, step).objects[d]; o.everReady && !o.deleting ==> o.own
  {}

  lemma {:induction false} RunKeepsDeployers(s: State, steps: seq<Step>)
    requires Inv(s) && DeployersOwn(s)
    ensures DeployersOwn(Run(s, steps))
    decreases |steps|
  {
    if steps != [] {
      StepKeepsDeployers(s, steps[0]);
      StepPreserves(s, steps[0]);
      RunKeepsDeployers(Apply(s, steps[0]), steps[1..]);
    }
  }

  lemma StepKeepsUntilUntracked(s: State, step: Step, d: Key, uid: nat)
    requires Inv(s) && d.kind == Deployer && Identified(s, d, uid) && s.objects[d].own && step != Untracked(d)
    ensures Identified(Apply(s, step), d, uid) && Apply(s, step).objects[d].own
  {
    if step.DropFinalizer? && Identified(s, step.key, step.uid) && NoReferrers(step.key, step.uid) in s.seen {
      assert step.key.kind != Deployer;
    }
  }

  lemma {:induction false} RunKeepsUntilUntracked(s: State, steps: seq<Step>, d: Key, uid: nat)
    requires Inv(s) && d.kind == Deployer && Identified(s, d, uid) && s.objects[d].own
    requires forall step :: step in steps ==> step != Untracked(d)
    ensures Identified(Run(s, steps), d, uid) && Run(s, steps).objects[d].own
    decreases |steps|
  {
    if steps != [] {
      assert steps[0] in steps && forall step :: step in steps[1..] ==> step in steps;
      StepKeepsUntilUntracked(s, steps[0], d, uid);
      StepPreserves(s, steps[0]);
      RunKeepsUntilUntracked(Apply(s, steps[0]), steps[1..], d, uid);
    }
  }

  /** In every run: a Deployer that has ever become Ready and is not being deleted has its finalizer. Deleting it, and
      whatever happens then, leaves it in place until its watches have been untracked. */
  lemma {:induction false} ReadyDeployerIsUntrackedFirst(steps: seq<Step>, d: Key, more: seq<Step>)
    requires d.kind == Deployer
    requires var s := Run(Init, steps); d in s.objects && s.objects[d].everReady && !s.objects[d].deleting
    requires forall step :: step in more ==> step != Untracked(d)
    ensures Run(Init, steps).objects[d].own
    ensures var s := Run(Init, steps);
      var s' := Run(Apply(s, Delete(d)), more);
      Identified(s', d, s.objects[d].uid) && s'.objects[d].own
  {
    var s := Run(Init, steps);
    RunPreserves(Init, steps);
    RunKeepsDeployers(Init, steps);
    StepPreserves(s, Delete(d));
    StepKeepsUntilUntracked(s, Delete(d), d, s.objects[d].uid);
    RunKeepsUntilUntracked(Apply(s, Delete(d)), more, d, s.objects[d].uid);
  }

  lemma {:induction false} RunConcat(s: State, xs: seq<Step>, ys: seq<Step>)
    ensures Run(s, xs + ys) == Run(Run(s, xs), ys)
    decreases |xs|
  {
    if xs == [] {
      assert xs + ys == ys;
    } else {
      assert (xs + ys)[0] == xs[0] && (xs + ys)[1..] == xs[1..] + ys;
      RunConcat(Apply(s, xs[0]), xs[1..], ys);
    }
  }

  lemma {:induction false} SeenGrows(s: State, steps: seq<Step>)
    ensures s.seen <= Run(s, steps).seen
    decreases |steps|
  {
    if steps != [] {
      SeenGrows(Apply(s, steps[0]), steps[1..]);
    }
  }

  lemma StepKeepsReference(s: State, step: Step, a: Key, uid: nat, ref: Ref)
    requires uid < s.nextUid && (Identified(s, a, uid) ==> s.objects[a].ref == ref)
    ensures var s' := Apply(s, step); uid < s'.nextUid && (Identified(s', a, uid) ==> s'.objects[a].ref == ref)
  {}

  /** Identities are never reused, so an identity keeps its reference. */
  lemma {:induction false} ReferenceFixed(s: State, steps: seq<Step>, a: Key, uid: nat, ref: Ref)
    requires uid < s.nextUid && (Identified(s, a, uid) ==> s.objects[a].ref == ref)
    ensures Identified(Run(s, steps), a, uid) ==> Run(s, steps).objects[a].ref == ref
    decreases |steps|
  {
    if steps != [] {
      StepKeepsReference(s, steps[0], a, uid, ref);
      ReferenceFixed(Apply(s, steps[0]), steps[1..], a, uid, ref);
    }
  }

  // ---------------------------------------------------------------------------------------------------
  // The reconcilers as sequences of API calls
  // ---------------------------------------------------------------------------------------------------

  /** The API server, changed in place. Each reconcile takes as `gap` whatever others do between its calls and
      reports the `trace` of all steps taken, so that every result about `Run` applies to it. */
  class Cluster {
    var state: State

    constructor ()
      ensures state == Init
    {
      state := Init;
    }

    method Perform(steps: seq<Step>)
      modifies this
      ensures state == Run(old(state), steps)
    {
      var i := 0;
      while i < |steps|
        invariant 0 <= i <= |steps|
        invariant Run(state, steps[i..]) == Run(old(state), steps)
      {
        state := Apply(state, steps[i]);
        i := i + 1;
      }
    }

    /** A call, what others do, and a second call. */
    method Interleave(first: Step, gap: seq<Step>, second: Step) returns (trace: seq<Step>)
      modifies this
      ensures trace == [first] + gap + [second]
      ensures state == Run(old(state), trace)
      ensures state == Apply(Run(Apply(old(state), first), gap), second)
    {
      ghost var s := state;
      Perform([first]);
      Perform(gap);
      Perform([second]);
      trace := [first] + gap + [second];
      RunConcat(s, [first] + gap, [second]);
      RunConcat(s, [first], gap);
    }

    /** Fetch the object; `fetched` is what the reconcile goes by from then on, and others act before its next call. */
    method FetchObject(k: Key, gap: seq<Step>) returns (trace: seq<Step>)
      requires k in state.objects
      modifies this
      ensures trace == [Fetch(k)] + gap && state == Run(old(state), trace)
      ensures state == Run(Apply(old(state), Fetch(k)), gap)
      ensures Seen(k, old(state.objects[k])) <= state.seen
      ensures gap == [] ==> state == old(state.(seen := state.seen + Seen(k, state.objects[k])))
    {
      ghost var s := state;
      Perform([Fetch(k)]);
      SeenGrows(state, gap);
      Perform(gap);
      trace := [Fetch(k)] + gap;
      RunConcat(s, [Fetch(k)], gap);
    }

    /** List the referrers and drop the finalizer only if there are none. Left alone, an object without other
        finalizers is gone afterwards exactly when nothing referenced it. */
    method DeleteUnlessReferenced(k: Key, uid: nat, own: bool, gap: seq<Step>) returns (trace: seq<Step>)
      requires own ==> Leaving(k, uid) in state.seen
      modifies this
      ensures state == Run(old(state), trace)
      ensures old(Referenced(state, k)) || !own ==> trace == [MarkNotReady(k)]
      ensures gap == [] && own && old(Identified(state, k, uid) && state.objects[k].deleting && k.kind != Deployer)
        ==> old(Referenced(state, k)) || Released(k, old(state), state)
    {
      if Referenced(state, k) || !own {
        trace := [MarkNotReady(k)];
        Perform(trace);
      } else {
        trace := Interleave(ListReferrers(k, uid), gap, DropFinalizer(k, uid));
      }
    }

    /** Read the referent and become Ready on it if it is Ready and not being deleted. An object that has vanished
        meanwhile cannot be patched. */
    method BecomeReady(k: Key, uid: nat, gap: seq<Step>, succeeds: bool) returns (trace: seq<Step>)
      requires Proceeding(k, uid) in state.seen
      modifies this
      ensures state == Run(old(state), trace)
      ensures forall u :: MarkReady(k, uid, u) in trace && MarkReady(k, uid, u) !in gap ==>
        Identified(old(state), k, uid) && ReferentUsable(old(state), k) && u == ReferentUid(old(state), k)
      ensures gap == [] && old(Identified(state, k, uid) && !state.objects[k].deleting) ==>
        && k in state.objects && (state.objects[k].ready <==> succeeds && old(ReferentUsable(state, k)))
        && state.objects[k].own == (old(state.objects[k].own) || (k.kind == Deployer && state.objects[k].ready))
        && state.objects - {k} == old(state.objects) - {k}
    {
      trace := [];
      if !Identified(state, k, uid) { return; }
      if ReferentUsable(state, k) {
        var second := if succeeds then MarkReady(k, uid, ReferentUid(state, k)) else MarkNotReady(k);
        trace := Interleave(ReadReferent(k, uid), gap, second);
      } else {
        trace := [MarkNotReady(k)];
        Perform(trace);
      }
    }

    /** One reconcile of any kind. Between fetching the object, its second and its third call, others do what `gap1`
        and `gap2` say. Whatever that is, the result is reachable by `Run`, and what an object whose readiness
        was marked relies on is in place. */
    method Reconcile(k: Key, gap1: seq<Step>, gap2: seq<Step>, untracked: bool,
                     succeeds: bool) returns (trace: seq<Step>)
      modifies this
      ensures state == Run(old(state), trace)
      ensures old(Inv(state)) ==> Inv(state)
      ensures old(Inv(state)) && k in state.objects && state.objects[k].ready && HasReferent(k) ==>
        Identified(state, Referent(k, state.objects[k].ref), state.objects[k].via)
    {
      ghost var s := state;
      trace := ReconcileObject(k, gap1, gap2, untracked, succeeds);
      if Inv(s) {
        RunPreserves(s, trace);
        ReadyHasReferent(state, k);
      }
    }

    /** The reconcilers differ in what they check first: Resources and Deployers look at suspension before anything
        else, Repositories and Components at deletion, then at the finalizer. Undisturbed, each does what its
        branch is for. */
    method ReconcileObject(k: Key, gap1: seq<Step>, gap2: seq<Step>, untracked: bool,
                           succeeds: bool) returns (trace: seq<Step>)
      modifies this
      ensures state == Run(old(state), trace)
      ensures gap1 == gap2 == [] && k in old(state.objects) ==> Undisturbed(k, old(state), state, untracked, succeeds)
    {
      trace := [];
      if k !in state.objects { return; }
      var o := state.objects[k];
      ghost var s := state;
      var fetched := FetchObject(k, gap1);
      var next: seq<Step> := [];
      if (k.kind == Resource || k.kind == Deployer) && o.suspended {
      } else if o.deleting {
        if k.kind == Deployer {
          if untracked {
            next := [Untracked(k)];
            Perform(next);
          }
        } else if k.kind != Repository || o.own {
          next := DeleteUnlessReferenced(k, o.uid, o.own, gap2);
        }
      } else if k.kind != Deployer && !o.own {
        next := [AddFinalizer(k, o.uid)];
        Perform(next);
      } else if !o.suspended {
        next := BecomeReady(k, o.uid, gap2, succeeds);
      }
      trace := fetched + next;
      RunConcat(s, fetched, next);
    }
  }

  /** The finalizer is gone, and with it the object unless someone else holds it. */
  ghost predicate Released(k: Key, s: State, s': State)
    requires k in s.objects
  {
    s'.objects == if s.objects[k].foreign then s.objects[k := s.objects[k].(own := false)] else s.objects - {k}
  }

  /** What one reconcile of `k` does if nothing else happens. */
  ghost predicate Undisturbed(k: Key, s: State, s': State, untracked: bool, succeeds: bool)
    requires k in s.objects
  {
    var o := s.objects[k];
    if o.suspended && (k.kind == Resource || k.kind == Deployer) then s'.objects == s.objects
    else if o.deleting then
      if k.kind == Deployer then
        if untracked then Released(k, s, s') else s'.objects == s.objects
      else if k.kind == Repository && !o.own then s'.objects == s.objects
      else if Referenced(s, k) || !o.own then o.own || o.foreign ==> s'.objects == s.objects[k := o.(ready := false)]
      else Released(k, s, s')
    else if k.kind != Deployer && !o.own then s'.objects == s.objects[k := o.(own := true)]
    else if o.suspended then s'.objects == s.objects
    else
      && k in s'.objects && (s'.objects[k].ready <==> succeeds && ReferentUsable(s, k))
      && s'.objects[k].own == (o.own || (k.kind == Deployer && s'.objects[k].ready))
      && s'.objects - {k} == s.objects - {k}
  }
}
