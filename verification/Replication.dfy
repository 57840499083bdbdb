/** Replication: a bounded history of transfers that folds repeated failures into one record, and the reconciler
    that skips a transfer when the history shows that it has been done. */
module Replication {
  import opened Results

  /** What is to be replicated, and where to. */
  datatype Goal = Goal(component: string, version: string, target: string)

  /** One transfer run; without `success`, `error` says why. */
  datatype Record = Record(goal: Goal, source: string, start: int, end: int, error: string, success: bool)

  // ---------------------------------------------------------------------------------------------------
  // The history
  // ---------------------------------------------------------------------------------------------------

  predicate SameFailure(last: Record, r: Record) {
    !r.success && !last.success && last.error == r.error && last.goal == r.goal
  }

  predicate Repeats(h: seq<Record>, r: Record) { h != [] && SameFailure(h[|h| - 1], r) }

  /** The record is appended, or updates the times of the last one; first the oldest has to make room. A negative
      capacity is always exceeded, so that with it an empty history cannot be cut. */
  function Add(h: seq<Record>, capacity: int, r: Record): seq<Record>
    requires capacity < 0 ==> h != []
  {
    if capacity == 0 then h else
      var kept := if |h| >= capacity then h[1..] else h;
      if Repeats(kept, r)
      then kept[..|kept| - 1] + [kept[|kept| - 1].(start := r.start, end := r.end)]
      else kept + [r]
  }

  function AddAll(h: seq<Record>, capacity: int, rs: seq<Record>): seq<Record>
    requires capacity > 0
    decreases |rs|
  {
    if rs == [] then h else AddAll(Add(h, capacity, rs[0]), capacity, rs[1..])
  }

  ghost predicate Recorded(h: seq<Record>, g: Goal) { exists r :: r in h && r.goal == g && r.success }

  /** Nothing new goes unrecorded: the last record tells of the run that was added, and the others are those there
      before, without at most the oldest and without one that the new record updates. */
  lemma LatestIsRecorded(h: seq<Record>, capacity: int, r: Record)
    requires capacity != 0 && (capacity < 0 ==> h != [])
    ensures var h' := Add(h, capacity, r);
      var n, d := |h'| - 1, if |h| >= capacity then 1 else 0;
      && n >= 0 && h'[n] == r.(source := h'[n].source)
      && (h'[..n] == h[d..] || (h'[..n] == h[d..|h| - 1] && Repeats(h, r)))
  {
    var h', d := Add(h, capacity, r), if |h| >= capacity then 1 else 0;
    assert h[0..] == h;
    if Repeats(h[d..], r) {
      assert h[d..][..|h[d..]| - 1] == h[d..|h| - 1];
    }
  }

  lemma {:induction false} LengthStaysBounded(h: seq<Record>, capacity: int, rs: seq<Record>)
    requires 0 < capacity && |h| <= capacity
    ensures |AddAll(h, capacity, rs)| <= capacity
    decreases |rs|
  {
    if rs != [] { LengthStaysBounded(Add(h, capacity, rs[0]), capacity, rs[1..]); }
  }

  /** How many of the records repeat the failure right before them, the first one that of `last`. */
  function Repetitions(last: Record, rs: seq<Record>): nat
    decreases |rs|
  {
    if rs == [] then 0 else (if SameFailure(last, rs[0]) then 1 else 0) + Repetitions(rs[0], rs[1..])
  }

  lemma {:induction false} RepetitionsOfAlike(a: Record, b: Record, rs: seq<Record>)
    requires a == b.(source := a.source, start := a.start, end := a.end)
    ensures Repetitions(a, rs) == Repetitions(b, rs)
  {}

  lemma AddAboveCapacity(h: seq<Record>, capacity: int, r: Record)
    requires 0 < capacity <= |h| && |h| > 1
    ensures var h', again := Add(h, capacity, r), SameFailure(h[|h| - 1], r);
      && |h'| == (if again then |h| - 1 else |h|)
      && h'[|h'| - 1] == r.(source := h'[|h'| - 1].source)
  {
    assert h[1..][|h| - 2] == h[|h| - 1];
  }

  /** A capacity set below the length does not cut the history down. Above it, the history loses one record for each
      repetition of a failure and none otherwise, so it fits again if and only if as many failures were repeated as
      it has records too many. */
  lemma {:induction false} FitsAgainIff(h: seq<Record>, capacity: int, rs: seq<Record>)
    requires 0 < capacity <= |h|
    ensures var n := Repetitions(h[|h| - 1], rs);
      && (|AddAll(h, capacity, rs)| <= capacity <==> n >= |h| - capacity)
      && (n <= |h| - capacity ==> |AddAll(h, capacity, rs)| == |h| - n)
    decreases |rs|
  {
    if rs != [] {
      var h', later := Add(h, capacity, rs[0]), rs[1..];
      if |h| > 1 {
        AddAboveCapacity(h, capacity, rs[0]);
        RepetitionsOfAlike(h'[|h'| - 1], rs[0], later);
      }
      if |h'| >= capacity {
        FitsAgainIff(h', capacity, later);
      }
      if |h'| <= capacity {
        LengthStaysBounded(h', capacity, later);
      }
    }
  }

  /** While transfers succeed it keeps its length. */
  lemma {:induction false} ShrinkingDoesNotFit(h: seq<Record>, capacity: int, rs: seq<Record>)
    requires 0 < capacity <= |h|
    requires forall r :: r in rs ==> r.success
    ensures |AddAll(h, capacity, rs)| == |h|
  {
    NoRepetitions(h[|h| - 1], rs);
    FitsAgainIff(h, capacity, rs);
  }

  lemma {:induction false} NoRepetitions(last: Record, rs: seq<Record>)
    requires forall r :: r in rs ==> r.success
    ensures Repetitions(last, rs) == 0
    decreases |rs|
  {
    if rs != [] {
      assert rs[0] in rs;
      NoRepetitions(rs[0], rs[1..]);
    }
  }

  /** With room to spare, a record is folded into the last one exactly if both are failures of the same component,
      version and target with the same error, wherever they came from; the source of the first one stays. */
  lemma FoldsIff(h: seq<Record>, capacity: int, r: Record)
    requires 0 < |h| < capacity
    ensures var last, h' := h[|h| - 1], Add(h, capacity, r);
      && (|h'| == |h| <==>
            && !last.success && !r.success && last.error == r.error && last.goal.component == r.goal.component
            && last.goal.version == r.goal.version && last.goal.target == r.goal.target)
      && (|h'| == |h| ==> h'[|h| - 1].source == last.source)
  {}

  /** The record is in the history, with at most `n` records after it. */
  ghost predicate Within(h: seq<Record>, r: Record, n: nat) {
    exists i :: 0 <= i < |h| && h[i] == r && |h| - 1 - i <= n
  }

  lemma AddKeepsSuccess(h: seq<Record>, capacity: int, r: Record, n: nat, x: Record)
    requires r.success && Within(h, r, n) && n + 1 < capacity
    ensures Within(Add(h, capacity, x), r, n + 1)
  {
    var i :| 0 <= i < |h| && h[i] == r && |h| - 1 - i <= n;
    var h' := Add(h, capacity, x);
    var i' := if |h| >= capacity then i - 1 else i;
    assert 0 <= i' < |h'| && h'[i'] == r && |h'| - 1 - i' <= n + 1;
  }

  lemma {:induction false} AddAllKeepsSuccess(h: seq<Record>, capacity: int, r: Record, n: nat, rs: seq<Record>)
    requires r.success && Within(h, r, n) && n + |rs| < capacity
    ensures Within(AddAll(h, capacity, rs), r, n + |rs|)
    decreases |rs|
  {
    if rs != [] {
      AddKeepsSuccess(h, capacity, r, n, rs[0]);
      AddAllKeepsSuccess(Add(h, capacity, rs[0]), capacity, r, n + 1, rs[1..]);
    }
  }

  /** A success stays in the history, unchanged, while fewer than `capacity` records of any kind follow. */
  lemma {:induction false} SuccessIsKept(h: seq<Record>, capacity: int, r: Record, rs: seq<Record>)
    requires 0 < capacity && r.success && |rs| < capacity
    ensures r in AddAll(Add(h, capacity, r), capacity, rs)
  {
    var h' := Add(h, capacity, r);
    assert h'[|h'| - 1] == r && Within(h', r, 0);
    AddAllKeepsSuccess(h', capacity, r, 0, rs);
  }

  lemma CutTwice(h: seq<Record>, e: nat, d: nat, rs: seq<Record>)
    requires e + d <= |h| && rs != []
    ensures (h[e..] + [rs[0]])[d..] + rs[1..] == h[e + d..] + rs
  {}

  lemma AddSuccess(h: seq<Record>, capacity: int, r: Record)
    requires 0 < capacity && r.success
    ensures Add(h, capacity, r) == h[if |h| >= capacity then 1 else 0..] + [r]
  {
    assert h[0..] == h;
  }

  lemma {:induction false} SuccessesPushOut(h: seq<Record>, capacity: int, rs: seq<Record>)
    requires 0 < capacity && |h| <= capacity && |rs| <= capacity
    requires forall r :: r in rs ==> r.success
    ensures var d := if |h| + |rs| <= capacity then 0 else |h| + |rs| - capacity;
      AddAll(h, capacity, rs) == h[d..] + rs
    decreases |rs|
  {
    if rs == [] {
      assert h[0..] + rs == h;
    } else {
      assert rs[0] in rs;
      var e := if |h| >= capacity then 1 else 0;
      AddSuccess(h, capacity, rs[0]);
      SuccessesPushOut(Add(h, capacity, rs[0]), capacity, rs[1..]);
      CutTwice(h, e, if |h| + |rs| <= capacity then 0 else |h| + |rs| - capacity - e, rs);
    }
  }

  /** No longer than that: `capacity` successes leave nothing of what was there before. */
  lemma {:induction false} CapacitySuccessesReplaceAll(h: seq<Record>, capacity: int, rs: seq<Record>)
    requires 0 < capacity && |h| <= capacity && |rs| == capacity
    requires forall r :: r in rs ==> r.success
    ensures AddAll(h, capacity, rs) == rs
  {
    SuccessesPushOut(h, capacity, rs);
    assert h[|h|..] + rs == rs;
  }

  /** The history without a last record that the failure repeats. */
  function Older(h: seq<Record>, failure: Record): seq<Record> {
    if Repeats(h, failure) then h[..|h| - 1] else h
  }

  /** How many of `older` records remain before a failure that is new, or was there before. */
  function Remaining(older: nat, capacity: int, again: bool): nat
    requires capacity > 0
  {
    var room := if !again then capacity - 1 else if capacity == 1 then 0 else capacity - 2;
    if older <= room then older else room
  }

  ghost predicate FailureAfter(h: seq<Record>, older: seq<Record>, failure: Record) {
    && |h| == |older| + 1
    && h[..|older|] == older
    && SameFailure(h[|older|], failure)
    && h[|older|].start == failure.start && h[|older|].end == failure.end
  }

  lemma AddNewFailure(h: seq<Record>, capacity: int, failure: Record)
    requires 0 < capacity && |h| <= capacity && !Repeats(h, failure)
    ensures Add(h, capacity, failure) == h[if |h| >= capacity then 1 else 0..] + [failure]
  {
    assert h[0..] == h;
    if |h| > 1 { assert h[1..][|h| - 2] == h[|h| - 1]; }
  }

  lemma AddRepeatedFailure(h: seq<Record>, capacity: int, failure: Record)
    requires 0 < capacity && |h| <= capacity && Repeats(h, failure) && capacity > 1
    ensures Add(h, capacity, failure) ==
      h[if |h| >= capacity then 1 else 0..|h| - 1] + [h[|h| - 1].(start := failure.start, end := failure.end)]
  {
    if |h| >= capacity {
      assert h[1..][|h| - 2] == h[|h| - 1];
      assert h[1..][..|h| - 2] == h[1..|h| - 1];
    } else {
      assert h[..|h| - 1] == h[0..|h| - 1];
    }
  }

  lemma OneFailure(h: seq<Record>, capacity: int, failure: Record)
    requires 0 < capacity && |h| <= capacity && !failure.success
    ensures var o, h' := Older(h, failure), Add(h, capacity, failure);
      var rest := Remaining(|o|, capacity, Repeats(h, failure));
      FailureAfter(h', o[|o| - rest..], failure) && |h'| <= capacity
  {
    var o, h', d := Older(h, failure), Add(h, capacity, failure), if |h| >= capacity then 1 else 0;
    if !Repeats(h, failure) {
      AddNewFailure(h, capacity, failure);
      assert |o| - Remaining(|o|, capacity, false) == d;
    } else if capacity == 1 {
      assert h[1..] == [] && o == [] && h' == [failure];
    } else {
      AddRepeatedFailure(h, capacity, failure);
      assert o == h[..|h| - 1] && |o| - Remaining(|o|, capacity, true) == d;
      assert o[d..] == h[d..|h| - 1];
    }
  }

  lemma NextFailure(h: seq<Record>, capacity: int, failure: Record, next: Record)
    requires 0 < capacity && |h| <= capacity && SameFailure(failure, next)
    ensures var o, h' := Older(h, failure), Add(h, capacity, failure);
      var o' := Older(h', next);
      && Repeats(h', next)
      && o' == o[|o| - |o'|..]
      && Remaining(|o'|, capacity, true) == Remaining(|o|, capacity, true)
  {
    OneFailure(h, capacity, failure);
  }

  lemma SuffixOfSuffix(o: seq<Record>, o': seq<Record>, n: nat)
    requires n <= |o'| <= |o| && o' == o[|o| - |o'|..]
    ensures o'[|o'| - n..] == o[|o| - n..]
  {}

  /** After these failures there is one record for all of them, with the times of the last one, and at most two
      older records have been pushed out. */
  ghost predicate OneRecordForAll(h: seq<Record>, capacity: int, rs: seq<Record>, result: seq<Record>)
    requires 0 < capacity && rs != []
  {
    var o := Older(h, rs[0]);
    var rest := Remaining(|o|, capacity, Repeats(h, rs[0]) || |rs| > 1);
    FailureAfter(result, o[|o| - rest..], rs[|rs| - 1]) && |o| - rest <= 2
  }

  lemma OneRecordForNext(h: seq<Record>, h': seq<Record>, capacity: int, rs: seq<Record>, result: seq<Record>)
    requires 0 < capacity && |h| <= capacity && |rs| > 1
    requires var o, o' := Older(h, rs[0]), Older(h', rs[1]);
      && Repeats(h', rs[1])
      && |o'| <= |o| && o' == o[|o| - |o'|..]
      && Remaining(|o'|, capacity, true) == Remaining(|o|, capacity, true)
    requires OneRecordForAll(h', capacity, rs[1..], result)
    ensures OneRecordForAll(h, capacity, rs, result)
  {
    var o := Older(h, rs[0]);
    SuffixOfSuffix(o, Older(h', rs[1]), Remaining(|o|, capacity, true));
  }

  /** However often the same failure is recorded, it pushes out at most two records. The second goes because the
      oldest is dropped before the failure is recognized as a repetition, which also leaves the history one short
      of its capacity. */
  lemma {:induction false} RepeatedFailuresEvictAtMostTwo(h: seq<Record>, capacity: int, rs: seq<Record>)
    requires 0 < capacity && |h| <= capacity && rs != []
    requires forall i :: 0 <= i < |rs| ==> SameFailure(rs[0], rs[i])
    ensures OneRecordForAll(h, capacity, rs, AddAll(h, capacity, rs))
    decreases |rs|
  {
    var h', later := Add(h, capacity, rs[0]), rs[1..];
    OneFailure(h, capacity, rs[0]);
    if later == [] {
      assert AddAll(h', capacity, later) == h';
    } else {
      forall i | 0 <= i < |later| ensures SameFailure(later[0], later[i]) {
        assert later[i] == rs[i + 1] && later[0] == rs[1];
      }
      RepeatedFailuresEvictAtMostTwo(h', capacity, later);
      NextFailure(h, capacity, rs[0], rs[1]);
      OneRecordForNext(h, h', capacity, rs, AddAll(h', capacity, later));
    }
  }

  // ---------------------------------------------------------------------------------------------------
  // The reconciler
  // ---------------------------------------------------------------------------------------------------

  datatype Status = Status(history: seq<Record>, ready: bool)

  /** What the Component names as its deployed version. */
  datatype Source = Source(component: string, version: string, repository: string)

  /** A transfer that cannot get a session marks the object as not ready at once. */
  datatype Transfer = Transferred | Failed(error: string, noSession: bool)

  /** What a reconcile finds: the specification, the referents if they are ready, and how the calls outside go. */
  datatype Input = Input(capacity: int, deleting: bool, suspended: bool, component: Option<Source>,
                         target: Option<string>, configured: bool, transfer: Transfer, start: int, end: int,
                         persisted: bool)

  datatype Outcome = Ignored | NotPrepared | AlreadyReplicated | Replicated | TransferFailed | Panicked

  predicate Prepared(i: Input) { !i.deleting && !i.suspended && i.component.Some? && i.target.Some? }

  function GoalOf(i: Input): Goal
    requires Prepared(i)
  {
    Goal(i.component.value.component, i.component.value.version, i.target.value)
  }

  function RecordOf(i: Input): Record
    requires Prepared(i)
  {
    Record(GoalOf(i), i.component.value.repository, i.start, i.end,
           if i.transfer.Failed? then i.transfer.error else "", i.transfer.Transferred?)
  }

  ghost predicate Skips(s: Status, i: Input) { Prepared(i) && s.ready && Recorded(s.history, GoalOf(i)) }

  ghost predicate Runs(s: Status, i: Input) { Prepared(i) && !Skips(s, i) && i.configured }

  /** The object after one reconcile, before it is stored. */
  ghost function Decide(s: Status, i: Input): (Status, Outcome) {
    if i.deleting || i.suspended then (s, Ignored)
    else if !Prepared(i) then (s.(ready := false), NotPrepared)
    else if Skips(s, i) then (s.(ready := true), AlreadyReplicated)
    else if !i.configured then (s.(ready := false), NotPrepared)
    else if i.capacity < 0 && s.history == [] then
      (if i.transfer.Failed? && i.transfer.noSession then s.(ready := false) else s, Panicked)
    else (Status(Add(s.history, i.capacity, RecordOf(i)), i.transfer.Transferred?),
          if i.transfer.Transferred? then Replicated else TransferFailed)
  }

  ghost function Step(s: Status, i: Input): Status { if i.persisted then Decide(s, i).0 else s }

  const Initial := Status([], false)

  ghost function StateAt(inputs: seq<Input>, n: nat): Status
    requires n <= |inputs|
  {
    if n == 0 then Initial else Step(StateAt(inputs, n - 1), inputs[n - 1])
  }

  /** The n-th reconcile ran a transfer to this goal, and it succeeded. */
  ghost predicate SucceededAt(inputs: seq<Input>, n: nat, g: Goal)
    requires n < |inputs|
  {
    Runs(StateAt(inputs, n), inputs[n]) && inputs[n].transfer.Transferred? && GoalOf(inputs[n]) == g
  }

  ghost predicate SucceededBefore(inputs: seq<Input>, n: nat, g: Goal)
    requires n <= |inputs|
  {
    exists j :: 0 <= j < n && SucceededAt(inputs, j, g)
  }

  lemma AddedRecords(h: seq<Record>, capacity: int, r: Record, x: Record)
    requires capacity < 0 ==> h != []
    requires x in Add(h, capacity, r) && x.success
    ensures x in h || x == r
  {}

  lemma {:induction false} HistoryIsTrue(inputs: seq<Input>, n: nat, g: Goal)
    requires n <= |inputs| && Recorded(StateAt(inputs, n).history, g)
    ensures SucceededBefore(inputs, n, g)
    decreases n
  {
    var s', x :| s' == StateAt(inputs, n) && x in s'.history && x.goal == g && x.success;
    if n > 0 {
      var s, i := StateAt(inputs, n - 1), inputs[n - 1];
      if x in s.history {
        HistoryIsTrue(inputs, n - 1, g);
      } else {
        assert Runs(s, i);
        AddedRecords(s.history, i.capacity, RecordOf(i), x);
        assert SucceededAt(inputs, n - 1, g);
      }
    }
  }

  /** Whenever a reconcile marks the object Ready, its transfer or an earlier one succeeded for that component,
      version and target; it is skipped only if an earlier one did and is still recorded. This holds for any
      sequence of specifications, referents and failures, and whether or not each status could be stored. */
  lemma {:induction false} ReadyMeansReplicated(inputs: seq<Input>, n: nat)
    requires n < |inputs| && Decide(StateAt(inputs, n), inputs[n]).1 in {AlreadyReplicated, Replicated}
    ensures SucceededBefore(inputs, n + 1, GoalOf(inputs[n]))
    ensures !SucceededAt(inputs, n, GoalOf(inputs[n])) ==>
      Recorded(StateAt(inputs, n).history, GoalOf(inputs[n])) && SucceededBefore(inputs, n, GoalOf(inputs[n]))
  {
    if Skips(StateAt(inputs, n), inputs[n]) {
      HistoryIsTrue(inputs, n, GoalOf(inputs[n]));
      var j :| 0 <= j < n && SucceededAt(inputs, j, GoalOf(inputs[n]));
    } else {
      assert SucceededAt(inputs, n, GoalOf(inputs[n]));
    }
  }

  /** What a stored reconcile leaves in the status: Ready after a transfer that succeeded or was not needed, not Ready
      after one that failed, and when the referents are not ready or the configuration cannot be resolved; unchanged if
      the object is being deleted or suspended. */
  lemma ReadyAfter(s: Status, i: Input)
    requires i.persisted
    ensures !Prepared(i) && !i.deleting && !i.suspended ==> !Step(s, i).ready
    ensures i.deleting || i.suspended ==> Step(s, i) == s
    ensures Skips(s, i) ==> Step(s, i).ready && Step(s, i).history == s.history
    ensures Prepared(i) && !Skips(s, i) && !i.configured ==> !Step(s, i).ready && Step(s, i).history == s.history
    ensures Runs(s, i) && i.transfer.Transferred? && Decide(s, i).1 != Panicked ==> Step(s, i).ready
    ensures Runs(s, i) && i.transfer.Failed? && Decide(s, i).1 != Panicked ==> !Step(s, i).ready
    ensures Decide(s, i).1 == Panicked <==> Runs(s, i) && i.capacity < 0 && s.history == []
    ensures Decide(s, i).1 == Panicked ==>
      Step(s, i).history == s.history && (Step(s, i).ready <==> s.ready && !(i.transfer.Failed? && i.transfer.noSession))
  {}

  /** A status that cannot be stored is lost, whatever the transfer did. */
  lemma LostPatchChangesNothing(s: Status, i: Input)
    requires !i.persisted
    ensures Step(s, i) == s
  {}

  /** A transfer that was run and stored is told of by the last record: what was to go where, when it ran, and whether and
      why it failed. */
  lemma TransferIsRecorded(s: Status, i: Input)
    requires i.persisted && Runs(s, i) && i.capacity != 0 && Decide(s, i).1 != Panicked
    ensures var h := Step(s, i).history;
      h != [] && var r := h[|h| - 1];
      && r.goal.component == i.component.value.component && r.goal.version == i.component.value.version
      && r.goal.target == i.target.value && r.start == i.start && r.end == i.end
      && r.success == i.transfer.Transferred? && (i.transfer.Failed? ==> r.error == i.transfer.error)
      && (r.success ==> r.source == i.component.value.repository)
  {
    LatestIsRecorded(s.history, i.capacity, RecordOf(i));
  }

  /** Over any sequence of specifications, referents and failures: a status that is Ready rests on a transfer that
      succeeded before. */
  lemma {:induction false} ReadyStatusRestsOnTransfer(inputs: seq<Input>, n: nat)
    requires n <= |inputs| && StateAt(inputs, n).ready
    ensures exists g :: SucceededBefore(inputs, n, g)
    decreases n
  {
    if n > 0 {
      var s, i := StateAt(inputs, n - 1), inputs[n - 1];
      if !s.ready {
        assert Runs(s, i) && i.transfer.Transferred?;
        assert SucceededAt(inputs, n - 1, GoalOf(i));
        assert SucceededBefore(inputs, n, GoalOf(i));
      } else {
        ReadyStatusRestsOnTransfer(inputs, n - 1);
        var g :| SucceededBefore(inputs, n - 1, g);
        assert SucceededBefore(inputs, n, g);
      }
    }
  }

  /** How many of the reconciles from `j` up to `n` ran a transfer. */
  ghost function TransfersIn(inputs: seq<Input>, j: nat, n: nat): nat
    requires j <= n <= |inputs|
    decreases n
  {
    if j == n then 0 else
      TransfersIn(inputs, j, n - 1) + (if Runs(StateAt(inputs, n - 1), inputs[n - 1]) then 1 else 0)
  }

  lemma {:induction false} RecordSurvives(inputs: seq<Input>, capacity: int, j: nat, n: nat, r: Record)
    requires j < n <= |inputs| && forall k :: j <= k < n ==> inputs[k].capacity == capacity
    requires inputs[j].persisted && Decide(StateAt(inputs, j), inputs[j]).1 == Replicated && r == RecordOf(inputs[j])
    requires TransfersIn(inputs, j + 1, n) < capacity
    ensures Within(StateAt(inputs, n).history, r, TransfersIn(inputs, j + 1, n))
    decreases n
  {
    var s, i, s' := StateAt(inputs, n - 1), inputs[n - 1], StateAt(inputs, n);
    if n == j + 1 {
      assert s'.history == Add(s.history, capacity, r);
      assert s'.history[|s'.history| - 1] == r;
    } else {
      var m := TransfersIn(inputs, j + 1, n - 1);
      RecordSurvives(inputs, capacity, j, n - 1, r);
      if s'.history != s.history {
        assert Runs(s, i);
        AddKeepsSuccess(s.history, capacity, r, m, RecordOf(i));
      } else {
        var k :| 0 <= k < |s.history| && s.history[k] == r && |s.history| - 1 - k <= m;
        assert |s'.history| - 1 - k <= TransfersIn(inputs, j + 1, n);
      }
    }
  }

  /** A stored success is used again: while fewer than `capacity` transfers followed, a Ready object whose goal is
      the same once more is not transferred again. */
  lemma {:induction false} SuccessIsReused(inputs: seq<Input>, capacity: int, j: nat, n: nat)
    requires j < n < |inputs| && forall k :: j <= k < n ==> inputs[k].capacity == capacity
    requires inputs[j].persisted && Decide(StateAt(inputs, j), inputs[j]).1 == Replicated
    requires TransfersIn(inputs, j + 1, n) < capacity
    requires Prepared(inputs[n]) && GoalOf(inputs[n]) == GoalOf(inputs[j])
    ensures StateAt(inputs, n).ready <==> Decide(StateAt(inputs, n), inputs[n]).1 == AlreadyReplicated
  {
    var r := RecordOf(inputs[j]);
    RecordSurvives(inputs, capacity, j, n, r);
    assert r in StateAt(inputs, n).history;
  }

  /** With capacity 0 nothing is ever recorded, so every prepared reconcile transfers again. */
  lemma {:induction false} ZeroCapacityNeverSkips(inputs: seq<Input>, n: nat)
    requires n < |inputs| && forall k :: 0 <= k < |inputs| ==> inputs[k].capacity == 0
    ensures StateAt(inputs, n).history == []
    ensures Prepared(inputs[n]) && inputs[n].configured ==> Runs(StateAt(inputs, n), inputs[n])
    decreases n
  {
    if n > 0 { ZeroCapacityNeverSkips(inputs, n - 1); }
  }

  // ---------------------------------------------------------------------------------------------------
  // The object
  // ---------------------------------------------------------------------------------------------------

  class Replication {
    var history: seq<Record>
    var ready: bool

    ghost function State(): Status
      reads this
    {
      Status(history, ready)
    }

    constructor ()
      ensures State() == Initial
    {
      history, ready := [], false;
    }

    /** `ok` is false when the call panics. */
    method AddHistoryRecord(capacity: int, r: Record) returns (ok: bool)
      modifies this`history
      ensures ok <==> capacity >= 0 || old(history) != []
      ensures history == if ok then Add(old(history), capacity, r) else old(history)
    {
      if capacity == 0 { return true; }
      if |history| >= capacity {
        if history == [] { return false; }
        history := history[1..];
      }
      if |history| > 0 {
        var last := history[|history| - 1];
        if !r.success && !last.success && last.error == r.error && last.goal == r.goal {
          history := history[|history| - 1 := last.(start := r.start, end := r.end)];
          return true;
        }
      }
      history := history + [r];
      ok := true;
    }

    method IsInHistory(g: Goal) returns (found: bool)
      ensures found <==> Recorded(history, g)
    {
      for i := 0 to |history|
        invariant forall j :: 0 <= j < i ==> !(history[j].goal == g && history[j].success)
      {
        if history[i].goal == g && history[i].success {
          assert history[i] in history;
          return true;
        }
      }
      found := false;
    }

    method Reconcile(i: Input) returns (outcome: Outcome)
      modifies this
      ensures outcome == old(Decide(State(), i)).1
      ensures State() == old(Step(State(), i))
    {
      var stored, storedReady := history, ready;
      outcome := ReconcileObject(i);
      if !i.persisted {
        history, ready := stored, storedReady;
      }
    }

    /** The reconcile proper; storing its result is left to the caller. */
    method ReconcileObject(i: Input) returns (outcome: Outcome)
      modifies this
      ensures (State(), outcome) == old(Decide(State(), i))
    {
      if i.deleting || i.suspended { return Ignored; }
      if i.component.None? {
        ready := false;
        return NotPrepared;
      }
      if i.target.None? {
        ready := false;
        return NotPrepared;
      }
      var found := IsInHistory(GoalOf(i));
      if ready && found { return AlreadyReplicated; }
      if !i.configured {
        ready := false;
        return NotPrepared;
      }
      if i.transfer.Failed? {
        if i.transfer.noSession { ready := false; }
        var recorded := AddHistoryRecord(i.capacity, RecordOf(i));
        if !recorded { return Panicked; }
        ready := false;
        return TransferFailed;
      }
      var recorded := AddHistoryRecord(i.capacity, RecordOf(i));
      if !recorded { return Panicked; }
      ready := true;
      outcome := Replicated;
    }
  }
}
