/** The table of dynamic watches. A watch is registered per parent kind, child kind and namespace, but the
    informer behind it is shared by all watches of one child kind. Each Register and Unregister is one step. */
module InformerManager {
  import Bags

  datatype Gvk = Gvk(group: string, version: string, kind: string)

  datatype Key = Key(parent: Gvk, gvk: Gvk, namespace: string)

  /** An informer watches one kind; a new one is made after the old one was removed. */
  datatype Informer = Informer(gvk: Gvk, id: nat)

  type Registration = nat

  datatype Task = Task(informer: Informer, registration: Registration)

  /** `informers` is the cache's current informer per kind, `handlers` are the registrations still
      attached, each with the watch it was made for. */
  datatype WatchState = WatchState(tasks: map<Key, Task>, informers: map<Gvk, Informer>, stopped: set<Informer>,
                         handlers: map<Registration, Key>, activeTasks: int, made: nat)

  const Empty := WatchState(map[], map[], {}, map[], 0, 0)

  /** Which of the calls to the informer cache fail during one operation. */
  datatype Failures = Failures(get: bool, add: bool, removeHandler: bool, removeInformer: bool)

  const NoFailures := Failures(false, false, false, false)

  // ---------------------------------------------------------------------------------------------------
  // Specification
  // ---------------------------------------------------------------------------------------------------

  /** Another parent kind watches the same child kind in the same namespace. */
  ghost predicate Shared(tasks: map<Key, Task>, k: Key) {
    exists j :: j in tasks && j.gvk == k.gvk && j.namespace == k.namespace && j.parent != k.parent
  }

  predicate IsStopped(s: WatchState, k: Key) { k in s.tasks && s.tasks[k].informer in s.stopped }

  predicate IsActive(s: WatchState, k: Key) { k in s.tasks && s.tasks[k].informer !in s.stopped }

  ghost function Active(s: WatchState): set<Key> { set k | k in s.tasks && IsActive(s, k) }

  /** The informer of a kind, made on demand. */
  function GetInformer(s: WatchState, g: Gvk): WatchState {
    if g in s.informers then s else s.(informers := s.informers[g := Informer(g, s.made)], made := s.made + 1)
  }

  function RegisterSpec(s: WatchState, k: Key, f: Failures): WatchState {
    if k in s.tasks || f.get then s else
      var s1 := GetInformer(s, k.gvk);
      if f.add then s1 else
        s1.(tasks := s1.tasks[k := Task(s1.informers[k.gvk], s1.made)], handlers := s1.handlers[s1.made := k],
            activeTasks := s1.activeTasks + 1, made := s1.made + 1)
  }

  /** The informer goes by kind alone, whatever namespaces it serves. */
  function RemoveInformer(s: WatchState, g: Gvk): WatchState {
    if g in s.informers then s.(stopped := s.stopped + {s.informers[g]}, informers := s.informers - {g}) else s
  }

  ghost function StopTaskSpec(s: WatchState, k: Key, f: Failures): WatchState
    requires k in s.tasks
  {
    if Shared(s.tasks, k) || f.removeHandler then s else
      var s1 := s.(handlers := s.handlers - {s.tasks[k].registration});
      if f.removeInformer then s1 else
        var s2 := RemoveInformer(s1, k.gvk);
        s2.(tasks := s2.tasks - {k}, activeTasks := s2.activeTasks - 1)
  }

  ghost function UnregisterSpec(s: WatchState, k: Key, f: Failures): WatchState {
    if k in s.tasks then StopTaskSpec(s, k, f) else s
  }

  datatype Op = Reg(key: Key, failures: Failures) | Unreg(key: Key, failures: Failures)

  ghost function Apply(s: WatchState, op: Op): WatchState {
    match op
    case Reg(k, f) => RegisterSpec(s, k, f)
    case Unreg(k, f) => UnregisterSpec(s, k, f)
  }

  ghost function Run(s: WatchState, ops: seq<Op>): WatchState
    decreases |ops|
  {
    if ops == [] then s else Run(Apply(s, ops[0]), ops[1..])
  }

  // ---------------------------------------------------------------------------------------------------
  // Accounting
  // ---------------------------------------------------------------------------------------------------

  ghost predicate Identities(s: WatchState) {
    && (forall g :: g in s.informers ==>
          s.informers[g].gvk == g && s.informers[g].id < s.made && s.informers[g] !in s.stopped)
    && (forall i :: i in s.stopped ==> i.id < s.made)
    && (forall h :: h in s.handlers ==> h < s.made)
  }

  /** A watch has the current informer of its kind, or one that has been stopped. */
  ghost predicate CurrentOrStopped(s: WatchState) {
    forall k :: k in s.tasks && s.tasks[k].informer !in s.stopped ==>
      k.gvk in s.informers && s.informers[k.gvk] == s.tasks[k].informer
  }

  ghost predicate HandlersHaveTasks(s: WatchState) {
    forall h :: h in s.handlers ==> s.handlers[h] in s.tasks && s.tasks[s.handlers[h]].registration == h
  }

  ghost predicate Inv(s: WatchState) {
    Identities(s) && CurrentOrStopped(s) && HandlersHaveTasks(s) && s.activeTasks == |s.tasks|
  }

  lemma GetInformerPreserves(s: WatchState, g: Gvk)
    requires Inv(s)
    ensures Inv(GetInformer(s, g)) && g in GetInformer(s, g).informers
  {}

  lemma AddTaskPreserves(s: WatchState, k: Key)
    requires Inv(s) && k !in s.tasks && k.gvk in s.informers
    ensures Inv(s.(tasks := s.tasks[k := Task(s.informers[k.gvk], s.made)], handlers := s.handlers[s.made := k],
                   activeTasks := s.activeTasks + 1, made := s.made + 1))
  {
    AddingCounts(s.tasks, k, Task(s.informers[k.gvk], s.made));
  }

  lemma RegisterPreserves(s: WatchState, k: Key, f: Failures)
    requires Inv(s)
    ensures Inv(RegisterSpec(s, k, f))
  {
    GetInformerPreserves(s, k.gvk);
    if k !in s.tasks && !f.get && !f.add {
      AddTaskPreserves(GetInformer(s, k.gvk), k);
    }
  }

  lemma AddingCounts(m: map<Key, Task>, k: Key, t: Task)
    requires k !in m
    ensures |m[k := t]| == |m| + 1
  {
    assert m[k := t].Keys == m.Keys + {k};
  }

  lemma RemovingCounts(m: map<Key, Task>, k: Key)
    requires k in m
    ensures |m - {k}| == |m| - 1
  {
    var r := m - {k};
    assert m.Keys == r.Keys + {k} && k !in r.Keys;
    assert |m.Keys| == |r.Keys| + 1;
  }

  lemma RemoveInformerPreserves(s: WatchState, g: Gvk)
    requires Inv(s)
    ensures Inv(RemoveInformer(s, g))
  {}

  lemma UnregisterPreserves(s: WatchState, k: Key, f: Failures)
    requires Inv(s)
    ensures Inv(UnregisterSpec(s, k, f))
  {
    if k in s.tasks && !Shared(s.tasks, k) && !f.removeHandler {
      var s1 := s.(handlers := s.handlers - {s.tasks[k].registration});
      assert Inv(s1) && forall h :: h in s1.handlers ==> s1.handlers[h] != k;
      if !f.removeInformer {
        RemoveInformerPreserves(s1, k.gvk);
        RemoveTaskPreserves(RemoveInformer(s1, k.gvk), k);
      }
    }
  }

  lemma RemoveTaskPreserves(s: WatchState, k: Key)
    requires Inv(s) && k in s.tasks && forall h :: h in s.handlers ==> s.handlers[h] != k
    ensures Inv(s.(tasks := s.tasks - {k}, activeTasks := s.activeTasks - 1))
  {
    RemovingCounts(s.tasks, k);
  }

  /** After any operations, failing ones included: the gauge counts the watches in the table, and every handler
      still attached belongs to a watch in the table. */
  lemma {:induction false} AccountsBalance(s: WatchState, ops: seq<Op>)
    requires Inv(s)
    ensures Inv(Run(s, ops))
    decreases |ops|
  {
    if ops != [] {
      match ops[0] {
        case Reg(k, f) => RegisterPreserves(s, k, f);
        case Unreg(k, f) => UnregisterPreserves(s, k, f);
      }
      AccountsBalance(Apply(s, ops[0]), ops[1..]);
    }
  }

  /** The registration of a watch is still attached, to that watch. */
  predicate Attached(s: WatchState, k: Key) {
    k in s.tasks && s.tasks[k].registration in s.handlers && s.handlers[s.tasks[k].registration] == k
  }

  /** Those of the watches in the table whose unregistration failed half-way, after it had removed the handler. */
  ghost function HalfStopped(s: WatchState, ops: seq<Op>, already: set<Key>): set<Key>
    decreases |ops|
  {
    if ops == [] then already else
      var k, f := ops[0].key, ops[0].failures;
      var now :=
        if ops[0].Unreg? && Detaches(s, k, f)
        then (if f.removeInformer then already + {k} else already - {k})
        else already;
      HalfStopped(Apply(s, ops[0]), ops[1..], now)
  }

  /** Registrations are not used twice. */
  ghost predicate OwnRegistrations(s: WatchState) {
    && (forall k :: k in s.tasks ==> s.tasks[k].registration < s.made)
    && (forall j, k :: j in s.tasks && k in s.tasks && j != k ==> s.tasks[j].registration != s.tasks[k].registration)
  }

  ghost predicate AttachedBut(s: WatchState, half: set<Key>) {
    OwnRegistrations(s) && half <= s.tasks.Keys && forall k :: k in s.tasks ==> (Attached(s, k) <==> k !in half)
  }

  lemma FewerKeepRegistrations(s: WatchState, s': WatchState)
    requires OwnRegistrations(s) && s'.made >= s.made
    requires forall k :: k in s'.tasks ==> k in s.tasks && s'.tasks[k] == s.tasks[k]
    ensures OwnRegistrations(s')
  {}

  lemma AddedKeepsRegistrations(s: WatchState, s': WatchState, k: Key, t: Task)
    requires OwnRegistrations(s) && s.made <= t.registration < s'.made && s'.tasks == s.tasks[k := t]
    ensures OwnRegistrations(s')
  {}

  lemma StepKeepsRegistrations(s: WatchState, op: Op)
    requires OwnRegistrations(s)
    ensures OwnRegistrations(Apply(s, op))
  {
    var s', k := Apply(s, op), op.key;
    if op.Reg? && k !in s.tasks && !op.failures.get && !op.failures.add {
      AddedKeepsRegistrations(s, s', k, s'.tasks[k]);
    } else {
      FewerKeepRegistrations(s, s');
    }
  }

  lemma RegisterKeepsAttached(s: WatchState, k: Key, f: Failures, j: Key)
    requires Inv(s) && OwnRegistrations(s) && j in s.tasks
    ensures j in RegisterSpec(s, k, f).tasks && (Attached(RegisterSpec(s, k, f), j) <==> Attached(s, j))
  {}

  lemma NewWatchIsAttached(s: WatchState, k: Key)
    requires k !in s.tasks
    ensures Attached(RegisterSpec(s, k, NoFailures), k)
    ensures forall f: Failures :: !f.get && !f.add ==> RegisterSpec(s, k, f) == RegisterSpec(s, k, NoFailures)
  {}

  lemma RegisterAttaches(s: WatchState, k: Key, f: Failures, half: set<Key>)
    requires Inv(s) && AttachedBut(s, half)
    ensures AttachedBut(RegisterSpec(s, k, f), half)
  {
    var s' := RegisterSpec(s, k, f);
    StepKeepsRegistrations(s, Reg(k, f));
    if k !in s.tasks { NewWatchIsAttached(s, k); }
    forall j | j in s'.tasks ensures Attached(s', j) <==> j !in half {
      if j in s.tasks { RegisterKeepsAttached(s, k, f, j); }
    }
  }

  /** An unregistration that gets past the removal of the handler. */
  ghost predicate Detaches(s: WatchState, k: Key, f: Failures) {
    k in s.tasks && !Shared(s.tasks, k) && !f.removeHandler
  }

  lemma UnregisterKeepsAttached(s: WatchState, k: Key, f: Failures, j: Key)
    requires Inv(s) && OwnRegistrations(s) && j in s.tasks && j != k
    ensures j in UnregisterSpec(s, k, f).tasks && (Attached(UnregisterSpec(s, k, f), j) <==> Attached(s, j))
  {}

  lemma UnregisterDetachesOne(s: WatchState, k: Key, f: Failures)
    requires Detaches(s, k, f)
    ensures !Attached(UnregisterSpec(s, k, f), k)
    ensures k in UnregisterSpec(s, k, f).tasks <==> f.removeInformer
  {}

  lemma OneDetached(s: WatchState, s': WatchState, k: Key, half: set<Key>)
    requires AttachedBut(s, half) && OwnRegistrations(s') && k in s.tasks && !Attached(s', k)
    requires s'.tasks.Keys <= s.tasks.Keys
    requires forall j :: j in s.tasks && j != k ==> j in s'.tasks && (Attached(s', j) <==> Attached(s, j))
    ensures AttachedBut(s', if k in s'.tasks then half + {k} else half - {k})
  {}

  lemma UnregisterDetaches(s: WatchState, k: Key, f: Failures, half: set<Key>)
    requires Inv(s) && AttachedBut(s, half)
    ensures Detaches(s, k, f) ==> AttachedBut(UnregisterSpec(s, k, f), if f.removeInformer then half + {k} else half - {k})
    ensures !Detaches(s, k, f) ==> UnregisterSpec(s, k, f) == s
  {
    if Detaches(s, k, f) {
      StepKeepsRegistrations(s, Unreg(k, f));
      UnregisterDetachesOne(s, k, f);
      forall j | j in s.tasks && j != k
        ensures j in UnregisterSpec(s, k, f).tasks && (Attached(UnregisterSpec(s, k, f), j) <==> Attached(s, j))
      {
        UnregisterKeepsAttached(s, k, f, j);
      }
      assert UnregisterSpec(s, k, f).tasks.Keys <= s.tasks.Keys;
      OneDetached(s, UnregisterSpec(s, k, f), k, half);
    }
  }

  lemma {:induction false} RunAttaches(s: WatchState, ops: seq<Op>, half: set<Key>)
    requires Inv(s) && AttachedBut(s, half)
    ensures AttachedBut(Run(s, ops), HalfStopped(s, ops, half))
    decreases |ops|
  {
    if ops != [] {
      var k, f := ops[0].key, ops[0].failures;
      match ops[0] {
        case Reg(_, _) =>
          RegisterAttaches(s, k, f, half);
          RegisterPreserves(s, k, f);
          RunAttaches(Apply(s, ops[0]), ops[1..], half);
        case Unreg(_, _) =>
          UnregisterDetaches(s, k, f, half);
          UnregisterPreserves(s, k, f);
          var now := if Detaches(s, k, f) then (if f.removeInformer then half + {k} else half - {k}) else half;
          RunAttaches(Apply(s, ops[0]), ops[1..], now);
      }
    }
  }

  /** Over any operations from the empty table, failing ones included: a watch in the table has its event handler
      attached if and only if no unregistration of it failed after removing the handler. */
  lemma {:induction false} HandlerAttachedIff(ops: seq<Op>, k: Key)
    requires k in Run(Empty, ops).tasks
    ensures Attached(Run(Empty, ops), k) <==> k !in HalfStopped(Empty, ops, {})
  {
    RunAttaches(Empty, ops, {});
  }

  /** A registration whose handler cannot be attached leaves an informer of the kind behind, and no watch. */
  lemma FailedAddLeavesInformer(s: WatchState, k: Key, f: Failures)
    requires k !in s.tasks && !f.get && f.add
    ensures var s' := RegisterSpec(s, k, f);
      k.gvk in s'.informers && s'.tasks == s.tasks && s'.handlers == s.handlers && s'.activeTasks == s.activeTasks
  {}

  // ---------------------------------------------------------------------------------------------------
  // What one unregistration does
  // ---------------------------------------------------------------------------------------------------

  /** Unregistering a watch that is not shared removes it, and stops the watches of its kind in every namespace.
      So the number of active watches falls unless none of that kind was active any more. */
  lemma UnregisterStopsKind(s: WatchState, k: Key)
    requires Inv(s) && k in s.tasks && !Shared(s.tasks, k)
    ensures var s' := UnregisterSpec(s, k, NoFailures);
      && s'.tasks == s.tasks - {k}
      && Active(s') == set j | j in Active(s) && j.gvk != k.gvk
      && (|Active(s')| < |Active(s)| <==> exists j :: j in Active(s) && j.gvk == k.gvk)
      && (k in Active(s) ==> |Active(s')| < |Active(s)|)
  {
    var s' := UnregisterSpec(s, k, NoFailures);
    var rest := set j | j in Active(s) && j.gvk != k.gvk;
    assert Active(s') == rest;
    assert rest <= Active(s);
    if j :| j in Active(s) && j.gvk == k.gvk {
      assert j !in rest;
      ProperSubsetSmaller(rest, Active(s), j);
    } else {
      assert rest == Active(s);
    }
  }

  lemma ProperSubsetSmaller(a: set<Key>, b: set<Key>, x: Key)
    requires a <= b && x in b && x !in a
    ensures |a| < |b|
  {
    assert a <= b - {x};
    Bags.SubsetSize(a, b - {x});
  }

  /** A watch that was stopped through another namespace is not renewed: it stays in the table, and registering it
      again changes nothing. */
  lemma StoppedWatchIsNotRenewed(s: WatchState, k: Key, j: Key, f: Failures)
    requires Inv(s) && k in s.tasks && !Shared(s.tasks, k)
    requires IsActive(s, j) && j != k && j.gvk == k.gvk
    ensures var s' := UnregisterSpec(s, k, NoFailures);
      IsStopped(s', j) && RegisterSpec(s', j, f) == s'
  {
    UnregisterStopsKind(s, k);
    assert j !in Active(UnregisterSpec(s, k, NoFailures));
  }

  /** Exactly when registering a watch makes it active: it was active, or it was not in the table at all. A watch that
      is there but stopped is never renewed. */
  lemma RegisterActivatesIff(s: WatchState, k: Key, f: Failures)
    requires Inv(s)
    ensures IsActive(RegisterSpec(s, k, f), k) <==> IsActive(s, k) || (k !in s.tasks && !f.get && !f.add)
  {
    GetInformerPreserves(s, k.gvk);
    if k !in s.tasks && !f.get && !f.add {
      var s1 := GetInformer(s, k.gvk);
      assert s1.informers[k.gvk] !in s1.stopped;
    }
  }

  ghost predicate AllShared(s: WatchState, g: Gvk) {
    forall k :: k in s.tasks && k.gvk == g ==> Shared(s.tasks, k)
  }

  ghost function WatchesOf(s: WatchState, g: Gvk): set<Key> { set k | k in s.tasks && k.gvk == g }
  ghost function ActiveOf(s: WatchState, g: Gvk): set<Key> { set k | k in s.tasks && k.gvk == g && IsActive(s, k) }

  lemma SharedElsewhere(tasks: map<Key, Task>, k: Key, j: Key)
    requires Shared(tasks, j) && j.gvk != k.gvk
    ensures Shared(tasks - {k}, j)
  {
    var i :| i in tasks && i.gvk == j.gvk && i.namespace == j.namespace && i.parent != j.parent;
    assert i in tasks - {k};
  }

  lemma RemovalKeepsOthersShared(s: WatchState, tasks: map<Key, Task>, k: Key, g: Gvk)
    requires AllShared(s, g) && k.gvk != g && tasks == s.tasks - {k}
    ensures forall j :: j in tasks && j.gvk == g ==> Shared(tasks, j)
  {
    forall j | j in tasks && j.gvk == g ensures Shared(tasks, j) {
      SharedElsewhere(s.tasks, k, j);
    }
  }

  lemma UnregisterLeavesOther(s: WatchState, k: Key, f: Failures, j: Key)
    requires Inv(s) && k.gvk != j.gvk
    ensures var s' := UnregisterSpec(s, k, f);
      (j in s'.tasks <==> j in s.tasks) && (IsActive(s', j) <==> IsActive(s, j))
  {}

  lemma UnregisterOfSharedKind(s: WatchState, k: Key, f: Failures)
    requires AllShared(s, k.gvk)
    ensures UnregisterSpec(s, k, f) == s
  {
    assert k in s.tasks ==> Shared(s.tasks, k);
  }

  lemma UnregisterLeavesSame(s: WatchState, k: Key, f: Failures, g: Gvk)
    requires Inv(s) && k.gvk != g
    ensures WatchesOf(UnregisterSpec(s, k, f), g) == WatchesOf(s, g)
    ensures ActiveOf(UnregisterSpec(s, k, f), g) == ActiveOf(s, g)
  {
    var s' := UnregisterSpec(s, k, f);
    forall j: Key | j.gvk == g
      ensures (j in WatchesOf(s', g) <==> j in WatchesOf(s, g)) && (j in ActiveOf(s', g) <==> j in ActiveOf(s, g))
    {
      UnregisterLeavesOther(s, k, f, j);
    }
  }

  lemma UnregisterLeavesShared(s: WatchState, k: Key, f: Failures, g: Gvk)
    requires AllShared(s, g) && k.gvk != g
    ensures AllShared(UnregisterSpec(s, k, f), g)
  {
    var s' := UnregisterSpec(s, k, f);
    if s'.tasks != s.tasks {
      RemovalKeepsOthersShared(s, s'.tasks, k, g);
    }
  }

  ghost predicate AreUnregistrations(ops: seq<Op>) { forall op :: op in ops ==> op.Unreg? }

  /** Two parent kinds that watch the same kind in the same namespace keep each other's watches: if all watches of
      a kind are shared, no unregistration, of whatever keys and however often, removes or stops any of them. */
  lemma {:induction false} SharedWatchesAreNeverReleased(s: WatchState, g: Gvk, ops: seq<Op>)
    requires Inv(s) && AllShared(s, g)
    requires AreUnregistrations(ops)
    ensures WatchesOf(Run(s, ops), g) == WatchesOf(s, g) && ActiveOf(Run(s, ops), g) == ActiveOf(s, g)
    decreases |ops|
  {
    if ops != [] {
      assert ops[0] in ops;
      var k, f := ops[0].key, ops[0].failures;
      UnregisterPreserves(s, k, f);
      if k.gvk == g {
        UnregisterOfSharedKind(s, k, f);
      } else {
        UnregisterLeavesSame(s, k, f, g);
        UnregisterLeavesShared(s, k, f, g);
      }
      SharedWatchesAreNeverReleased(Apply(s, ops[0]), g, ops[1..]);
    }
  }

  /** Two watches that share stay: neither can be the last one. */
  lemma {:induction false} SharedPairStays(s: WatchState, k: Key, j: Key, ops: seq<Op>)
    requires k in s.tasks && j in s.tasks && j.gvk == k.gvk && j.namespace == k.namespace && j.parent != k.parent
    requires AreUnregistrations(ops)
    ensures k in Run(s, ops).tasks && j in Run(s, ops).tasks
    decreases |ops|
  {
    if ops != [] {
      assert ops[0] in ops;
      assert Shared(s.tasks, k) && Shared(s.tasks, j);
      SharedPairStays(Apply(s, ops[0]), k, j, ops[1..]);
    }
  }

  lemma {:induction false} RunOne(s: WatchState, op: Op)
    ensures Run(s, [op]) == Apply(s, op)
  {
    assert [op][1..] == [];
    assert Run(Apply(s, op), []) == Apply(s, op);
  }

  /** A watch can be removed by unregistrations, of whatever keys and however many, if and only if no other parent kind
      shares it. */
  lemma {:induction false} RemovableIff(s: WatchState, k: Key)
    requires k in s.tasks
    ensures (exists ops :: AreUnregistrations(ops) && k !in Run(s, ops).tasks) <==> !Shared(s.tasks, k)
  {
    if Shared(s.tasks, k) {
      var j :| j in s.tasks && j.gvk == k.gvk && j.namespace == k.namespace && j.parent != k.parent;
      forall ops | AreUnregistrations(ops) ensures k in Run(s, ops).tasks {
        SharedPairStays(s, k, j, ops);
      }
    } else {
      var ops := [Unreg(k, NoFailures)];
      RunOne(s, ops[0]);
      assert AreUnregistrations(ops) && k !in Run(s, ops).tasks;
    }
  }

  /** It can be stopped if and only if some watch of its kind, in any namespace, is not shared. */
  lemma {:induction false} StoppableIff(s: WatchState, k: Key)
    requires Inv(s) && IsActive(s, k)
    ensures (exists ops :: AreUnregistrations(ops) && !IsActive(Run(s, ops), k)) <==> !AllShared(s, k.gvk)
  {
    if AllShared(s, k.gvk) {
      forall ops | AreUnregistrations(ops) ensures IsActive(Run(s, ops), k) {
        SharedWatchesAreNeverReleased(s, k.gvk, ops);
        assert k in ActiveOf(s, k.gvk) && k in ActiveOf(Run(s, ops), k.gvk);
      }
    } else {
      var j :| j in s.tasks && j.gvk == k.gvk && !Shared(s.tasks, j);
      var ops := [Unreg(j, NoFailures)];
      RunOne(s, ops[0]);
      UnregisterStopsKind(s, j);
      assert k !in Active(UnregisterSpec(s, j, NoFailures));
      assert AreUnregistrations(ops) && !IsActive(Run(s, ops), k);
    }
  }

  // ---------------------------------------------------------------------------------------------------
  // The manager as an object
  // ---------------------------------------------------------------------------------------------------

  class InformerManager {
    var tasks: map<Key, Task>
    var informers: map<Gvk, Informer>
    var stopped: set<Informer>
    var handlers: map<Registration, Key>
    var activeTasks: int
    var made: nat
    var queueBound: bool

    ghost function State(): WatchState
      reads this
    {
      WatchState(tasks, informers, stopped, handlers, activeTasks, made)
    }

    constructor ()
      ensures State() == Empty && !queueBound
    {
      tasks, informers, stopped, handlers, activeTasks, made, queueBound := map[], map[], {}, map[], 0, 0, false;
    }

    /** A queue can be bound once. */
    method SetQueue() returns (ok: bool)
      modifies this`queueBound
      ensures queueBound && ok == !old(queueBound)
    {
      ok := !queueBound;
      queueBound := true;
    }

    method Register(k: Key, f: Failures) returns (ok: bool)
      modifies this
      ensures State() == old(RegisterSpec(State(), k, f)) && queueBound == old(queueBound)
      ensures ok <==> k in tasks
      ensures ok && k !in old(tasks) ==> Attached(State(), k)
    {
      if k in tasks { return true; }
      if f.get { return false; }
      if k.gvk !in informers {
        informers := informers[k.gvk := Informer(k.gvk, made)];
        made := made + 1;
      }
      if f.add { return false; }
      handlers := handlers[made := k];
      tasks := tasks[k := Task(informers[k.gvk], made)];
      activeTasks := activeTasks + 1;
      made := made + 1;
      ok := true;
    }

    method Unregister(k: Key, f: Failures) returns (ok: bool)
      modifies this
      ensures State() == old(UnregisterSpec(State(), k, f)) && queueBound == old(queueBound)
      ensures ok <==> k !in old(tasks) || old(Shared(tasks, k)) || (!f.removeHandler && !f.removeInformer)
    {
      if k !in tasks { return true; }
      ok := StopTask(k, f);
    }

    /** Scan the whole table for another parent of the same kind and namespace. */
    method IsLastWatch(k: Key) returns (last: bool)
      ensures last == !Shared(tasks, k)
    {
      last := true;
      var rest := tasks.Keys;
      while rest != {}
        invariant rest <= tasks.Keys
        invariant last <==> forall j :: j in tasks && j !in rest ==> j.gvk != k.gvk || j.namespace != k.namespace || j.parent == k.parent
        decreases rest
      {
        var j :| j in rest;
        if j.gvk == k.gvk && j.namespace == k.namespace && j.parent != k.parent {
          last := false;
        }
        rest := rest - {j};
      }
    }

    method StopTask(k: Key, f: Failures) returns (ok: bool)
      requires k in tasks
      modifies this
      ensures State() == old(StopTaskSpec(State(), k, f)) && queueBound == old(queueBound)
      ensures ok <==> old(Shared(tasks, k)) || (!f.removeHandler && !f.removeInformer)
    {
      var last := IsLastWatch(k);
      if !last { return true; }
      if f.removeHandler { return false; }
      handlers := handlers - {tasks[k].registration};
      if f.removeInformer { return false; }
      if k.gvk in informers {
        stopped := stopped + {informers[k.gvk]};
        informers := informers - {k.gvk};
      }
      tasks := tasks - {k};
      activeTasks := activeTasks - 1;
      ok := true;
    }

    /** The watches of a parent kind, in the arbitrary order in which the table is iterated. */
    method ActiveForParent(parent: Gvk) returns (ks: seq<Key>)
      ensures forall k :: k in ks <==> k in tasks && k.parent == parent
      ensures forall i, j :: 0 <= i < j < |ks| ==> ks[i] != ks[j]
    {
      ks := [];
      var rest := tasks.Keys;
      while rest != {}
        invariant rest <= tasks.Keys
        invariant forall k :: k in ks <==> k in tasks && k !in rest && k.parent == parent
        invariant forall i, j :: 0 <= i < j < |ks| ==> ks[i] != ks[j]
        decreases rest
      {
        var k :| k in rest;
        if k.parent == parent { ks := ks + [k]; }
        rest := rest - {k};
      }
    }

    /** Stop every watch, in any order, going on after a failure. What is left are exactly the watches that are
        shared or whose stop failed, at either of its calls: the order plays no part. */
    method GracefulShutdown(order: seq<Key>, removeHandlerFails: set<Key>, removeInformerFails: set<Key>)
      returns (ok: bool)
      requires Inv(State())
      requires forall k :: k in order <==> k in tasks
      requires forall i, j :: 0 <= i < j < |order| ==> order[i] != order[j]
      modifies this
      ensures forall k :: k in tasks <==>
        k in old(tasks) && (Shared(old(tasks), k) || k in removeHandlerFails + removeInformerFails)
      ensures ok <==>
        forall k :: k in old(tasks) && k in removeHandlerFails + removeInformerFails ==> Shared(old(tasks), k)
      ensures Inv(State())
      ensures !queueBound
    {
      ghost var all, fails := tasks, removeHandlerFails + removeInformerFails;
      ok := StopAll(order, removeHandlerFails, removeInformerFails);
      RemainingAtEnd(all, tasks, order, fails);
      ghost var final := State();
      queueBound := false;
      assert State() == final;
    }

    method StopAll(order: seq<Key>, removeHandlerFails: set<Key>, removeInformerFails: set<Key>) returns (ok: bool)
      requires Inv(State())
      requires forall j :: 0 <= j < |order| ==> order[j] in tasks
      requires forall i, j :: 0 <= i < j < |order| ==> order[i] != order[j]
      modifies this
      ensures Inv(State())
      ensures Remaining(old(tasks), tasks, order, |order|, removeHandlerFails + removeInformerFails)
      ensures Reported(old(tasks), order, |order|, removeHandlerFails + removeInformerFails, ok)
    {
      ok := true;
      ghost var all, fails := tasks, removeHandlerFails + removeInformerFails;
      for i := 0 to |order|
        invariant Inv(State())
        invariant Remaining(all, tasks, order, i, fails)
        invariant Reported(all, order, i, fails, ok)
      {
        var stoppedOk := StopNext(all, order, i, order[i] in removeHandlerFails, order[i] in removeInformerFails, fails);
        ok := stoppedOk && ok;
      }
    }

    method StopNext(ghost all: map<Key, Task>, order: seq<Key>, i: nat, removeHandler: bool, removeInformer: bool,
                    ghost fails: set<Key>) returns (ok: bool)
      requires Inv(State()) && i < |order| && Remaining(all, tasks, order, i, fails)
      requires forall i, j :: 0 <= i < j < |order| ==> order[i] != order[j]
      requires order[i] in fails <==> removeHandler || removeInformer
      modifies this
      ensures Remaining(all, tasks, order, i + 1, fails)
      ensures ok <==> order[i] in fails ==> Shared(all, order[i])
      ensures Inv(State())
    {
      var k := order[i];
      SharedStaysShared(all, tasks, k);
      var f := Failures(false, false, removeHandler, removeInformer);
      UnregisterPreserves(State(), k, f);
      ok := StopTask(k, f);
    }
  }

  /** What the table holds when the first `i` watches have been dealt with. */
  ghost predicate Remaining(all: map<Key, Task>, tasks: map<Key, Task>, order: seq<Key>, i: nat, fails: set<Key>)
    requires i <= |order|
  {
    && tasks.Keys <= all.Keys
    && (forall k :: k in all && (Shared(all, k) || k in fails) ==> k in tasks)
    && (forall j :: i <= j < |order| ==> order[j] in tasks)
    && (forall j :: 0 <= j < i && order[j] in tasks ==> Shared(all, order[j]) || order[j] in fails)
  }

  /** `ok` reports whether none of the first `i` stops failed; a shared watch is not stopped, so it cannot fail. */
  ghost predicate Reported(all: map<Key, Task>, order: seq<Key>, i: nat, fails: set<Key>, ok: bool)
    requires i <= |order|
  {
    ok <==> forall j :: 0 <= j < i && order[j] in fails ==> Shared(all, order[j])
  }

  lemma RemainingAtEnd(all: map<Key, Task>, tasks: map<Key, Task>, order: seq<Key>, fails: set<Key>)
    requires Remaining(all, tasks, order, |order|, fails) && forall k :: k in order <==> k in all
    ensures forall k :: k in tasks <==> k in all && (Shared(all, k) || k in fails)
  {
    forall k | k in tasks ensures k in all && (Shared(all, k) || k in fails) {
      assert k in order;
    }
  }

  lemma SharedStaysShared(all: map<Key, Task>, tasks: map<Key, Task>, k: Key)
    requires tasks.Keys <= all.Keys && k in tasks && forall j :: j in all && Shared(all, j) ==> j in tasks
    ensures Shared(tasks, k) <==> Shared(all, k)
  {
    if Shared(all, k) {
      var j :| j in all && j.gvk == k.gvk && j.namespace == k.namespace && j.parent != k.parent;
      assert Shared(all, j) && j in tasks;
    }
  }
}
