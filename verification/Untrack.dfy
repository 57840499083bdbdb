/** Deleting a Deployer: Untrack asks for every watch of the parent kind that has not been stopped to be
    unregistered, and drops the Deployer's finalizer once there is none. The requests go through a buffered
    channel to workers, so workers may process requests between any two of Untrack's own steps. The same workers
    process registrations, which other Deployers of the same kind, or this one earlier on, have asked for. */
module Untrack {
  import opened Results
  import opened InformerManager

  /** `pending` is what a running Untrack still has to look at, `sent` whether it has sent a request;
      `queue` is the channel, first in, first out. `late` is history: the watches of the parent kind that have been
      registered since the last listing and whose kind has not been stopped since. */
  datatype System = System(watches: WatchState, pending: Option<seq<Key>>, sent: bool, queue: seq<Key>, finalizer: bool,
                           late: set<Key>)

  /** The parent kind of the Deployer, and how many requests the channel holds. */
  datatype Setting = Setting(parent: Gvk, capacity: nat)

  datatype Step =
    | Begin(order: seq<Key>)   // list the watches, in any order
    | Examine                  // look at the next one; blocks while the channel is full
    | Finish
    | Cancel
    | Process(failures: Failures)              // a worker takes a request and unregisters the watch
    | Register(key: Key, failures: Failures)   // a worker registers a watch

  ghost predicate Lists(s: System, p: Setting, order: seq<Key>) {
    forall k :: k in order <==> k in s.watches.tasks && k.parent == p.parent
  }

  ghost function Apply(s: System, p: Setting, step: Step): System {
    match step
    case Begin(order) =>
      if s.pending.None? && s.finalizer && Lists(s, p, order) then s.(pending := Some(order), sent := false, late := {})
      else s
    case Examine =>
      if s.pending.None? || s.pending.value == [] then s else
        var k, rest := s.pending.value[0], Some(s.pending.value[1..]);
        // A watch that is gone from the table does not count as stopped either.
        if IsStopped(s.watches, k) then s.(pending := rest)
        else if |s.queue| < p.capacity then s.(pending := rest, sent := true, queue := s.queue + [k])
        else s
    case Finish =>
      if s.pending != Some([]) then s
      else s.(pending := None, finalizer := s.finalizer && s.sent)
    case Cancel => s.(pending := None)
    case Process(f) =>
      if s.queue == [] then s else
        var k := s.queue[0];
        s.(watches := UnregisterSpec(s.watches, k, f), queue := s.queue[1..],
           late := if Releases(s.watches, k, f) then (set j | j in s.late && j.gvk != k.gvk) else s.late)
    case Register(k, f) =>
      s.(watches := RegisterSpec(s.watches, k, f),
         late := if k.parent == p.parent && k !in s.watches.tasks && !f.get && !f.add then s.late + {k} else s.late)
  }

  /** An unregistration that gets through. */
  ghost predicate Releases(s: WatchState, k: Key, f: Failures) {
    k in s.tasks && !Shared(s.tasks, k) && !f.removeHandler && !f.removeInformer
  }

  ghost function Run(s: System, p: Setting, steps: seq<Step>): System
    decreases |steps|
  {
    if steps == [] then s else Run(Apply(s, p, steps[0]), p, steps[1..])
  }

  ghost predicate NoneActive(s: System, p: Setting) {
    forall k: Key :: k.parent == p.parent ==> !IsActive(s.watches, k)
  }

  /** Unregistering never makes a watch active. */
  lemma UnregisterOnlyStops(s: WatchState, k: Key, f: Failures, j: Key)
    ensures IsActive(UnregisterSpec(s, k, f), j) ==> IsActive(s, j)
  {}

  // ---------------------------------------------------------------------------------------------------
  // Safety: what can be active when the finalizer is gone
  // ---------------------------------------------------------------------------------------------------

  /** A running Untrack that has sent nothing still has ahead of it all active watches but the late ones. */
  ghost predicate Safe(s: System, p: Setting) {
    && (s.pending.Some? && !s.sent ==>
          forall k: Key :: k.parent == p.parent && IsActive(s.watches, k) ==> k in s.pending.value || k in s.late)
    && (!s.finalizer ==> forall k: Key :: k.parent == p.parent && IsActive(s.watches, k) ==> k in s.late)
    && (forall k :: k in s.late ==> k.parent == p.parent && IsActive(s.watches, k))
  }

  lemma ProcessKeepsSafe(s: System, p: Setting, f: Failures)
    requires Inv(s.watches) && Safe(s, p) && s.queue != []
    ensures Safe(Apply(s, p, Process(f)), p)
  {
    var s', k := Apply(s, p, Process(f)), s.queue[0];
    forall j: Key | IsActive(s'.watches, j) && j in s.late ensures j in s'.late {
      ReleaseStopsKind(s.watches, k, f, j);
    }
    forall j | j in s'.late ensures IsActive(s'.watches, j) {
      ReleaseStopsKind(s.watches, k, f, j);
    }
    forall j: Key { UnregisterOnlyStops(s.watches, k, f, j); }
  }

  lemma ReleaseStopsKind(s: WatchState, k: Key, f: Failures, j: Key)
    requires Inv(s) && IsActive(s, j)
    ensures IsActive(UnregisterSpec(s, k, f), j) <==> !Releases(s, k, f) || j.gvk != k.gvk
  {}

  lemma RegisterLeavesOthers(s: WatchState, k: Key, f: Failures, j: Key)
    requires Inv(s) && j != k
    ensures IsActive(RegisterSpec(s, k, f), j) <==> IsActive(s, j)
  {}

  lemma RegisterKeepsSafe(s: System, p: Setting, k: Key, f: Failures)
    requires Inv(s.watches) && Safe(s, p)
    ensures Safe(Apply(s, p, Register(k, f)), p)
  {
    var s' := Apply(s, p, Register(k, f));
    RegisterActivatesIff(s.watches, k, f);
    forall j: Key | j != k ensures IsActive(s'.watches, j) <==> IsActive(s.watches, j) {
      RegisterLeavesOthers(s.watches, k, f, j);
    }
  }

  lemma StepKeepsSafe(s: System, p: Setting, step: Step)
    requires Inv(s.watches) && Safe(s, p)
    ensures Inv(Apply(s, p, step).watches) && Safe(Apply(s, p, step), p)
  {
    match step
    case Process(f) =>
      if s.queue != [] {
        UnregisterPreserves(s.watches, s.queue[0], f);
        ProcessKeepsSafe(s, p, f);
      }
    case Register(k, f) =>
      RegisterPreserves(s.watches, k, f);
      RegisterKeepsSafe(s, p, k, f);
    case _ =>
  }

  /** Whatever the interleaving of Untrack, unregistrations and registrations, failing ones included: when the finalizer
      is gone, the active watches of the parent kind are exactly those registered since the listing of the last
      Untrack, so none is active if and only if there is none of these. */
  lemma {:induction false} FinalizerOutlivesWatches(s: System, p: Setting, steps: seq<Step>)
    requires Inv(s.watches) && Safe(s, p)
    ensures var s' := Run(s, p, steps);
      && Inv(s'.watches) && Safe(s', p)
      && (!s'.finalizer ==> forall k: Key :: k.parent == p.parent ==> (IsActive(s'.watches, k) <==> k in s'.late))
      && (!s'.finalizer ==> (NoneActive(s', p) <==> s'.late == {}))
    decreases |steps|
  {
    if steps == [] {
      if k :| k in s.late { assert IsActive(s.watches, k) && k.parent == p.parent; }
    } else {
      StepKeepsSafe(s, p, steps[0]);
      FinalizerOutlivesWatches(Apply(s, p, steps[0]), p, steps[1..]);
    }
  }

  lemma {:induction false} NothingLate(s: System, p: Setting, steps: seq<Step>)
    requires s.late == {}
    requires forall i :: 0 <= i < |steps| ==> !(steps[i].Register? && steps[i].key.parent == p.parent)
    ensures Run(s, p, steps).late == {}
    decreases |steps|
  {
    if steps != [] {
      var s1 := Apply(s, p, steps[0]);
      assert s1.late == {};
      NothingLate(s1, p, steps[1..]);
    }
  }

  /** In particular, as long as nothing of the parent kind is registered, the finalizer outlives all its watches. */
  lemma {:induction false} SafeWithoutRegistrations(s: System, p: Setting, steps: seq<Step>)
    requires Inv(s.watches) && Safe(s, p) && s.late == {}
    requires forall i :: 0 <= i < |steps| ==> !(steps[i].Register? && steps[i].key.parent == p.parent)
    ensures !Run(s, p, steps).finalizer ==> NoneActive(Run(s, p, steps), p)
  {
    NothingLate(s, p, steps);
    FinalizerOutlivesWatches(s, p, steps);
  }

  /** A registration processed between the listing and the end of an Untrack defeats it: the finalizer goes although the
      new watch is active. */
  lemma {:induction false} RegistrationDefeatsUntrack(s: System, p: Setting, k: Key)
    requires Inv(s.watches) && s.pending.None? && s.finalizer
    requires forall j :: j in s.watches.tasks ==> j.parent != p.parent
    requires k.parent == p.parent
    ensures var s' := Run(s, p, [Begin([]), Register(k, NoFailures), Finish]);
      !s'.finalizer && IsActive(s'.watches, k)
  {
    var s1 := Apply(s, p, Begin([]));
    var s2 := Apply(s1, p, Register(k, NoFailures));
    var s3 := Apply(s2, p, Finish);
    RegisterActivatesIff(s.watches, k, NoFailures);
    var steps := [Begin([]), Register(k, NoFailures), Finish];
    assert steps[1..][1..][1..] == [] && steps[1..][1..][0] == Finish && steps[1..][0] == Register(k, NoFailures);
    assert Run(s3, p, steps[1..][1..][1..]) == s3;
    assert Run(s2, p, steps[1..][1..]) == s3;
    assert Run(s1, p, steps[1..]) == s3;
  }

  // ---------------------------------------------------------------------------------------------------
  // Progress, with a single parent kind, from when on nothing is registered and nothing fails
  // ---------------------------------------------------------------------------------------------------

  ghost predicate SingleParent(s: System, p: Setting) {
    forall k :: k in s.watches.tasks ==> k.parent == p.parent
  }

  predicate Calm(step: Step) { !step.Register? && (step.Process? ==> step.failures == NoFailures) }

  ghost predicate AllCalm(steps: seq<Step>) { forall i :: 0 <= i < |steps| ==> Calm(steps[i]) }

  lemma ProcessRemoves(s: WatchState, k: Key)
    requires Inv(s) && k in s.tasks && !Shared(s.tasks, k)
    ensures var s' := UnregisterSpec(s, k, NoFailures);
      s'.tasks == s.tasks - {k} && |s'.tasks| == |s.tasks| - 1 && !IsActive(s', k)
  {
    RemovingCounts(s.tasks, k);
  }

  lemma StepKeepsTable(s: System, p: Setting, step: Step)
    requires Inv(s.watches) && SingleParent(s, p) && Calm(step)
    ensures Inv(Apply(s, p, step).watches) && SingleParent(Apply(s, p, step), p)
  {
    if step.Process? && s.queue != [] { UnregisterPreserves(s.watches, s.queue[0], NoFailures); }
  }

  /** Every active watch is still to be looked at, or has a request among the first n of the channel. */
  ghost predicate Covered(s: System, n: nat, ahead: seq<Key>) {
    n <= |s.queue| && forall k: Key :: IsActive(s.watches, k) ==> k in ahead || k in s.queue[..n]
  }

  lemma ProcessKeepsCovered(s: System, p: Setting, n: nat, ahead: seq<Key>)
    requires Inv(s.watches) && SingleParent(s, p) && s.queue != [] && Covered(s, n, ahead)
    ensures Covered(Apply(s, p, Process(NoFailures)), if n == 0 then 0 else n - 1, ahead)
  {
    var s', k := Apply(s, p, Process(NoFailures)), s.queue[0];
    var m := if n == 0 then 0 else n - 1;
    if k in s.watches.tasks { ProcessRemoves(s.watches, k); }
    assert !IsActive(s'.watches, k);
    FirstTaken(s.queue, n, k);
    forall j: Key | IsActive(s'.watches, j) ensures j in ahead || j in s'.queue[..m] {
      UnregisterOnlyStops(s.watches, k, NoFailures, j);
      assert j in ahead || j in s.queue[..n];
    }
  }

  lemma FirstTaken(queue: seq<Key>, n: nat, k: Key)
    requires queue != [] && queue[0] == k && n <= |queue|
    ensures forall j :: j in queue[..n] && j != k ==> j in queue[1..][..if n == 0 then 0 else n - 1]
  {
    if n > 0 { assert queue[..n] == [k] + queue[1..][..n - 1]; }
  }

  lemma ExamineKeepsCovered(s: System, p: Setting)
    requires s.pending.Some? && Covered(s, |s.queue|, s.pending.value)
    ensures var s' := Apply(s, p, Examine);
      s'.pending.Some? && Covered(s', |s'.queue|, s'.pending.value)
  {
    var s' := Apply(s, p, Examine);
    assert s.queue[..|s.queue|] == s.queue && s'.queue[..|s'.queue|] == s'.queue;
    if s' != s {
      var k, rest := s.pending.value[0], s.pending.value[1..];
      assert s.pending.value == [k] + rest;
      forall j: Key | IsActive(s'.watches, j) ensures j in rest || j in s'.queue {
        assert j == k || j in rest || j in s.queue;
      }
    }
  }

  /** A complete Untrack, with workers at work in between, leaves a request for every active watch. */
  lemma {:induction false} UntrackCovers(s: System, p: Setting, steps: seq<Step>)
    requires Inv(s.watches) && SingleParent(s, p) && s.pending.Some? && Covered(s, |s.queue|, s.pending.value)
    requires forall i :: 0 <= i < |steps| ==> steps[i] == Examine || steps[i] == Process(NoFailures)
    ensures var s' := Run(s, p, steps);
      && Inv(s'.watches) && SingleParent(s', p) && s'.pending.Some?
      && Covered(s', |s'.queue|, s'.pending.value)
    decreases |steps|
  {
    if steps != [] {
      var s1 := Apply(s, p, steps[0]);
      StepKeepsTable(s, p, steps[0]);
      if steps[0].Process? {
        if s.queue != [] { ProcessKeepsCovered(s, p, |s.queue|, s.pending.value); }
      } else {
        ExamineKeepsCovered(s, p);
      }
      UntrackCovers(s1, p, steps[1..]);
    }
  }

  /** How many requests a run processes. */
  ghost function Processed(s: System, p: Setting, steps: seq<Step>): nat
    decreases |steps|
  {
    if steps == [] then 0 else
      (if steps[0].Process? && s.queue != [] then 1 else 0) + Processed(Apply(s, p, steps[0]), p, steps[1..])
  }

  lemma StepKeepsCovered(s: System, p: Setting, n: nat, step: Step)
    requires Inv(s.watches) && SingleParent(s, p) && Calm(step) && Covered(s, n, [])
    ensures var s' := Apply(s, p, step);
      Covered(s', if step.Process? && s.queue != [] && n > 0 then n - 1 else n, [])
  {
    var s' := Apply(s, p, step);
    if step.Process? {
      if s.queue != [] { ProcessKeepsCovered(s, p, n, []); }
    } else {
      assert s'.watches == s.watches && n <= |s'.queue| && s'.queue[..n] == s.queue[..n];
    }
  }

  /** Once the requests left by a complete Untrack have been processed, every watch is stopped, whatever further
      Untracks put into the channel meanwhile, duplicates included. */
  lemma {:induction false} RequestsStopEverything(s: System, p: Setting, n: nat, steps: seq<Step>)
    requires Inv(s.watches) && SingleParent(s, p) && AllCalm(steps) && Covered(s, n, [])
    ensures Processed(s, p, steps) >= n ==> NoneActive(Run(s, p, steps), p)
    ensures Inv(Run(s, p, steps).watches) && SingleParent(Run(s, p, steps), p)
    decreases |steps|
  {
    if steps != [] {
      StepKeepsTable(s, p, steps[0]);
      StepKeepsCovered(s, p, n, steps[0]);
      var n' := if steps[0].Process? && s.queue != [] && n > 0 then n - 1 else n;
      RequestsStopEverything(Apply(s, p, steps[0]), p, n', steps[1..]);
    }
  }

  /** How many Untracks of a run end by asking to be called again. */
  ghost function Retries(s: System, p: Setting, steps: seq<Step>): nat
    decreases |steps|
  {
    if steps == [] then 0 else
      (if steps[0].Finish? && s.pending == Some([]) && s.sent then 1 else 0) + Retries(Apply(s, p, steps[0]), p, steps[1..])
  }

  /** The running Untrack is going to ask again: it has sent a request, or a watch it listed is gone by now. */
  ghost function WillRetry(s: System): nat {
    if s.pending.Some? && (s.sent || exists k :: k in s.pending.value && k !in s.watches.tasks) then 1 else 0
  }

  lemma StepKeepsBudget(s: System, p: Setting, step: Step)
    requires Inv(s.watches) && SingleParent(s, p) && Calm(step) && NoneActive(s, p)
    ensures var s' := Apply(s, p, step);
      && NoneActive(s', p)
      && |s'.watches.tasks| + WillRetry(s') + (if step.Finish? && s.pending == Some([]) && s.sent then 1 else 0)
         <= |s.watches.tasks| + WillRetry(s)
  {
    var s' := Apply(s, p, step);
    match step
    case Process(_) =>
      if s.queue != [] {
        var k := s.queue[0];
        if k in s.watches.tasks { ProcessRemoves(s.watches, k); }
        forall j: Key { UnregisterOnlyStops(s.watches, k, NoFailures, j); }
      }
    case Examine =>
      if s' != s {
        var k := s.pending.value[0];
        assert s.pending.value == [k] + s.pending.value[1..];
        assert k in s.watches.tasks ==> IsStopped(s.watches, k);
      }
    case _ =>
  }

  /** From then on Untrack asks again at most once per watch left in the table; the next one to complete finds
      nothing to wait for and drops the finalizer. So deletion makes progress under any fair schedule. */
  lemma {:induction false} UntrackSucceeds(s: System, p: Setting, steps: seq<Step>)
    requires Inv(s.watches) && SingleParent(s, p) && AllCalm(steps) && NoneActive(s, p)
    ensures Retries(s, p, steps) <= |s.watches.tasks| + WillRetry(s)
    decreases |steps|
  {
    if steps != [] {
      StepKeepsTable(s, p, steps[0]);
      StepKeepsBudget(s, p, steps[0]);
      UntrackSucceeds(Apply(s, p, steps[0]), p, steps[1..]);
    }
  }

  /** How many Untracks of a run complete. */
  ghost function Completed(s: System, p: Setting, steps: seq<Step>): nat
    decreases |steps|
  {
    if steps == [] then 0 else
      (if steps[0].Finish? && s.pending == Some([]) then 1 else 0) + Completed(Apply(s, p, steps[0]), p, steps[1..])
  }

  lemma {:induction false} GoneStaysGone(s: System, p: Setting, steps: seq<Step>)
    ensures !s.finalizer ==> !Run(s, p, steps).finalizer
    decreases |steps|
  {
    if steps != [] { GoneStaysGone(Apply(s, p, steps[0]), p, steps[1..]); }
  }

  /** An Untrack that completes and does not ask again drops the finalizer. */
  lemma {:induction false} CompletionDecides(s: System, p: Setting, steps: seq<Step>)
    ensures Retries(s, p, steps) <= Completed(s, p, steps)
    ensures Run(s, p, steps).finalizer ==> Retries(s, p, steps) == Completed(s, p, steps)
    decreases |steps|
  {
    if steps != [] {
      CompletionDecides(Apply(s, p, steps[0]), p, steps[1..]);
      GoneStaysGone(Apply(s, p, steps[0]), p, steps[1..]);
    }
  }

  /** The whole deletion: one Untrack runs through, then the requests it left are processed while anything else
      happens. From then on no watch is active, and as soon as more Untracks have completed than there are watches left
      in the table, plus the one that may be under way, the finalizer is gone. */
  lemma {:induction false} DeletionProgresses(s: System, p: Setting, order: seq<Key>, untrack: seq<Step>,
                                              later: seq<Step>, rest: seq<Step>)
    requires Inv(s.watches) && SingleParent(s, p) && s.pending.None? && s.finalizer && Lists(s, p, order)
    requires forall i :: 0 <= i < |untrack| ==> untrack[i] == Examine || untrack[i] == Process(NoFailures)
    requires AllCalm(later) && AllCalm(rest)
    requires var s1 := Run(Apply(s, p, Begin(order)), p, untrack);
      s1.pending == Some([]) && Processed(s1, p, later) >= |s1.queue|
    ensures var s1 := Run(Apply(s, p, Begin(order)), p, untrack);
      var s2 := Run(s1, p, later);
      && NoneActive(s2, p)
      && Retries(s2, p, rest) <= |s2.watches.tasks| + 1
      && (Completed(s2, p, rest) > |s2.watches.tasks| + 1 ==> !Run(s2, p, rest).finalizer)
  {
    var s0 := Apply(s, p, Begin(order));
    UntrackCovers(s0, p, untrack);
    var s1 := Run(s0, p, untrack);
    RequestsStopEverything(s1, p, |s1.queue|, later);
    var s2 := Run(s1, p, later);
    UntrackSucceeds(s2, p, rest);
    CompletionDecides(s2, p, rest);
  }

  /** The channel never holds more requests than it has room for, unless it did from the start. */
  lemma {:induction false} QueueStaysBounded(s: System, p: Setting, steps: seq<Step>)
    requires |s.queue| <= p.capacity
    ensures |Run(s, p, steps).queue| <= p.capacity
    decreases |steps|
  {
    if steps != [] { QueueStaysBounded(Apply(s, p, steps[0]), p, steps[1..]); }
  }

  /** An Untrack that is cancelled keeps the finalizer; it has to begin again, and the requests it sent stand. */
  lemma CancelKeepsFinalizer(s: System, p: Setting)
    ensures var s' := Apply(s, p, Cancel);
      s'.pending.None? && s'.finalizer == s.finalizer && s'.queue == s.queue && s'.watches == s.watches
  {}

  lemma {:induction false} RunStep(s: System, p: Setting, step: Step, later: seq<Step>)
    ensures Run(s, p, [step] + later) == Run(Apply(s, p, step), p, later)
  {
    assert ([step] + later)[0] == step && ([step] + later)[1..] == later;
  }

  /** Such a watch: it is listed, then an earlier request for it is processed, and when Untrack looks at it, it is not
      there and so not stopped. Untrack asks once more although no watch is active. */
  lemma {:induction false} GoneWatchCostsARetry(s: System, p: Setting, k: Key)
    requires Inv(s.watches) && s.watches.tasks.Keys == {k} && k.parent == p.parent && p.capacity > 0
    requires s.pending.None? && s.finalizer && s.queue == [k]
    ensures var s' := Run(s, p, [Begin([k])] + ([Process(NoFailures)] + ([Examine] + ([Finish] + []))));
      s'.finalizer && s'.watches.tasks == map[] && NoneActive(s', p) && s'.queue == [k]
  {
    var s1 := Apply(s, p, Begin([k]));
    var s2 := Apply(s1, p, Process(NoFailures));
    var s3 := Apply(s2, p, Examine);
    RunStep(s, p, Begin([k]), [Process(NoFailures)] + ([Examine] + ([Finish] + [])));
    RunStep(s1, p, Process(NoFailures), [Examine] + ([Finish] + []));
    RunStep(s2, p, Examine, [Finish] + []);
    RunStep(s3, p, Finish, []);
    assert k in s.watches.tasks && Lists(s, p, [k]);
    ProcessRemoves(s.watches, k);
    assert s2.watches.tasks.Keys == {} && s2.pending == Some([k]) && s2.queue == [];
    assert s3.pending == Some([]) && s3.sent && s3.queue == [k];
  }

  /** While Untrack waits for room in the channel there is a request to process. */
  lemma NeverStuck(s: System, p: Setting)
    requires p.capacity > 0 && s.pending.Some? && s.pending.value != []
    ensures Apply(s, p, Examine) != s || s.queue != []
  {
    var s' := Apply(s, p, Examine);
    if s.queue == [] {
      assert s'.pending.value == s.pending.value[1..];
    }
  }

  /** So a running Untrack can always complete: workers only have to go on, whether or not their stops fail. */
  lemma {:induction false} UntrackCanComplete(s: System, p: Setting, f: Failures)
    requires p.capacity > 0 && s.pending.Some?
    ensures exists steps ::
      && (forall i :: 0 <= i < |steps| ==> steps[i] == Examine || steps[i] == Process(f))
      && Run(s, p, steps).pending == Some([])
    decreases |s.pending.value|, |s.queue|
  {
    if s.pending.value == [] {
      assert Run(s, p, []).pending == Some([]);
    } else {
      NeverStuck(s, p);
      var step := if Apply(s, p, Examine) != s then Examine else Process(f);
      var s1 := Apply(s, p, step);
      UntrackCanComplete(s1, p, f);
      var later :|
        && (forall i :: 0 <= i < |later| ==> later[i] == Examine || later[i] == Process(f))
        && Run(s1, p, later).pending == Some([]);
      RunStep(s, p, step, later);
    }
  }

  // ---------------------------------------------------------------------------------------------------
  // Untrack as a method, undisturbed
  // ---------------------------------------------------------------------------------------------------

  class Deployer {
    const manager: InformerManager
    const kind: Gvk
    var stopChannel: seq<Key>
    var finalizer: bool

    constructor (manager: InformerManager, kind: Gvk)
      ensures this.manager == manager && this.kind == kind && stopChannel == [] && finalizer
    {
      this.manager, this.kind, stopChannel, finalizer := manager, kind, [], true;
    }

    /** One request for every watch of the parent kind that is not stopped; the finalizer goes exactly if there is
        none. */
    method Untrack() returns (done: bool)
      modifies this
      ensures done <==> forall k :: k in manager.tasks && k.parent == kind ==> IsStopped(manager.State(), k)
      ensures finalizer == (old(finalizer) && !done)
      ensures old(stopChannel) <= stopChannel
      ensures forall k :: k in stopChannel[|old(stopChannel)|..] <==>
        k in manager.tasks && k.parent == kind && IsActive(manager.State(), k)
    {
      var watches := manager.ActiveForParent(kind);
      var requests: seq<Key> := [];
      for i := 0 to |watches|
        invariant forall k :: k in requests <==> k in watches[..i] && IsActive(manager.State(), k)
      {
        assert watches[i] in watches;
        if manager.tasks[watches[i]].informer !in manager.stopped {
          requests := requests + [watches[i]];
        }
      }
      assert watches[..|watches|] == watches;
      stopChannel := stopChannel + requests;
      if requests != [] {
        assert requests[0] in requests;
        return false;
      }
      finalizer := false;
      done := true;
    }
  }
}
