/** The Component reconciler: it deploys the version that selection allows, but only after comparing the cached
    descriptor with the live one, and closes a session that turns out to be stale. */
module ComponentController {
  import opened Results
  import opened SemVer
  import opened VersionSelection

  /** The session cached for the component's repository. An open session keeps answering with what it first
      looked up, including that a version was not found. */
  datatype SessionView = NoSession | Closed | Open(view: map<string, Option<Descriptor>>)

  datatype Status = Status(version: string, digest: Option<string>, ready: bool)

  datatype Outcome =
    | Ready
    | NotPrepared
    | VersionNotDetermined
    | MissingInSession
    | SessionLookupFailed
    | ComparisonFailed
    | HashMismatch
    | VerificationFailed

  /** What the outside answers during one reconcile. The live repository is asked three times, for the listing, for
      a first lookup through the session and for the comparison, and may change in between. */
  datatype Environment = Environment(
    prepared: bool,                    // Repository ready, configuration resolved, session and live access at hand
    live: Answers, fetched: Repository, compared: Repository,
    sessionFails: bool, comparisonFails: bool, verified: bool)

  // ---------------------------------------------------------------------------------------------------
  // Specification
  // ---------------------------------------------------------------------------------------------------

  function Opened(s: SessionView): (r: SessionView)
    ensures r.Open?
  {
    if s.Open? then s else Open(map[])
  }

  function Find(repo: Repository, v: string): Option<Descriptor> { if v in repo then Some(repo[v]) else None }

  /** A lookup through an open session freezes its first answer. */
  function LookUp(view: map<string, Option<Descriptor>>, repo: Repository, v: string): map<string, Option<Descriptor>> {
    if v in view then view else view[v := Find(repo, v)]
  }

  /** The comparison of the cached with the live descriptor: an error, a mismatch, or the common hash. The hash is
      unstable if one of them cannot be normalized; that is reported as an event and no failure. */
  datatype Comparison = Failed | Mismatch | Unstable(hash: string) | Same(hash: string)

  function CompareCachedAndLive(cached: Descriptor, compared: Repository, v: string, fails: bool): Comparison {
    if fails || v !in compared || cached.hash.None? || compared[v].hash.None? then Failed
    else if cached.hash != compared[v].hash then Mismatch
    else if !cached.normalizeable || !compared[v].normalizeable then Unstable(cached.hash.value)
    else Same(cached.hash.value)
  }

  /** Status, session and outcome once version `v` has been chosen. */
  function AfterChoice(st: Status, view: map<string, Option<Descriptor>>, env: Environment, v: string)
    : (Status, SessionView, Outcome)
  {
    if v !in view && env.sessionFails then (st.(ready := false), Open(view), SessionLookupFailed) else
      var view' := LookUp(view, env.fetched, v);
      if view'[v].None? then (st, Closed, MissingInSession) else
        match CompareCachedAndLive(view'[v].value, env.compared, v, env.comparisonFails)
        case Failed => (st.(ready := false), Open(view'), ComparisonFailed)
        case Mismatch => (st, Closed, HashMismatch)
        case Unstable(hash) => AfterComparison(Open(view'), st, env, v, hash)
        case Same(hash) => AfterComparison(Open(view'), st, env, v, hash)
  }

  function AfterComparison(session: SessionView, st: Status, env: Environment, v: string, hash: string)
    : (Status, SessionView, Outcome)
  {
    if !env.verified then (st.(ready := false), session, VerificationFailed)
    else (Status(v, Some(hash), true), session, Ready)
  }

  // ---------------------------------------------------------------------------------------------------
  // The reconciler as an object
  // ---------------------------------------------------------------------------------------------------

  class Reconciler {
    const lib: Library
    var version: string
    var digest: Option<string>
    var ready: bool
    var session: SessionView

    ghost function State(): Status
      reads this
    {
      Status(version, digest, ready)
    }

    constructor (lib: Library)
      ensures State() == Status("", None, false) && session == NoSession && this.lib == lib
    {
      this.lib := lib;
      version, digest, ready, session := "", None, false, NoSession;
    }

    method MarkNotReady()
      modifies this`ready
      ensures !ready
    {
      ready := false;
    }

    /** `chosen` reports the version that selection settled on, if it did. */
    method Reconcile(spec: Spec, env: Environment) returns (outcome: Outcome, chosen: Option<string>)
      modifies this
      ensures chosen.Some? ==>
        && IsLatest(lib, spec.constraint, env.live.listing, chosen.value)
        && MayReplace(lib, spec.policy, env.live.contents, old(version), chosen.value)
        && (State(), session, outcome) == old(AfterChoice(State(), Opened(session).view, env, chosen.value))
      ensures chosen.None? ==>
        && version == old(version) && digest == old(digest) && !ready
        && outcome == (if env.prepared then VersionNotDetermined else NotPrepared)
        && session == (if env.prepared then Opened(old(session)) else old(session))
    {
      chosen := None;
      if !env.prepared {
        MarkNotReady();
        return NotPrepared, None;
      }
      session := Opened(session);
      var determined, latest := DetermineEffectiveVersion(lib, spec, version, env.live);
      if determined.Err? {
        MarkNotReady();
        return VersionNotDetermined, None;
      }
      var v := determined.value;
      chosen := Some(v);
      if v !in session.view && env.sessionFails {
        MarkNotReady();
        return SessionLookupFailed, chosen;
      }
      session := Open(LookUp(session.view, env.fetched, v));
      var cached := session.view[v];
      if cached.None? {
        session := Closed;
        return MissingInSession, chosen;
      }
      var comparison := CompareCachedAndLive(cached.value, env.compared, v, env.comparisonFails);
      if comparison.Mismatch? {
        session := Closed;
        return HashMismatch, chosen;
      }
      if comparison.Failed? {
        MarkNotReady();
        return ComparisonFailed, chosen;
      }
      if !env.verified {
        MarkNotReady();
        return VerificationFailed, chosen;
      }
      version, digest, ready := v, Some(comparison.hash), true;
      outcome := Ready;
    }
  }

  // ---------------------------------------------------------------------------------------------------
  // Stale sessions heal
  // ---------------------------------------------------------------------------------------------------

  predicate Stale(outcome: Outcome) { outcome == MissingInSession || outcome == HashMismatch }

  /** Everything that can happen to the cached session while the live repository does not change: reconciles of the
      component, lookups by other users of the session, and its end by eviction or by anyone closing it. */
  datatype SessionStep =
    | Reconciled(st: Status, env: Environment, v: string)
    | LookedUp(v: string)
    | Ended(evicted: bool)

  /** The environments a reconcile can meet when the live repository is `repo` throughout. */
  predicate Sees(repo: Repository, step: SessionStep) {
    step.Reconciled? ==> step.env.fetched == repo && step.env.compared == repo && step.v in repo
  }

  function NextSession(s: SessionView, repo: Repository, step: SessionStep): SessionView {
    match step
    case Reconciled(st, env, v) => AfterChoice(st, Opened(s).view, env, v).1
    case LookedUp(v) => Open(LookUp(Opened(s).view, repo, v))
    case Ended(evicted) => if evicted then NoSession else Closed
  }

  predicate IsStale(s: SessionView, step: SessionStep) {
    step.Reconciled? && Stale(AfterChoice(step.st, Opened(s).view, step.env, step.v).2)
  }

  /** A reconcile closes its session exactly if it finds it stale. */
  lemma ClosedIffStale(s: SessionView, repo: Repository, step: SessionStep)
    requires step.Reconciled?
    ensures NextSession(s, repo, step) == Closed <==> IsStale(s, step)
    ensures !IsStale(s, step) ==> NextSession(s, repo, step).Open?
  {}

  /** An open session keeps its first answers, and a new one asks the repository. */
  lemma AnswersAreFrozen(s: SessionView, repo: Repository, step: SessionStep, v: string)
    requires Sees(repo, step)
    ensures s.Open? && v in s.view && NextSession(s, repo, step).Open? ==>
      v in NextSession(s, repo, step).view && NextSession(s, repo, step).view[v] == s.view[v]
    ensures step == LookedUp(v) && !(s.Open? && v in s.view) ==>
      NextSession(s, repo, step).view[v] == if v in repo then Some(repo[v]) else None
  {}

  /** With the session's answer at hand and calls that work, it is found stale exactly if the version was missing in it
      or its hash is not the live one. */
  lemma StaleIff(s: SessionView, repo: Repository, step: SessionStep)
    requires step.Reconciled? && Sees(repo, step) && s.Open? && step.v in s.view && !step.env.comparisonFails
    requires repo[step.v].hash.Some? && (s.view[step.v].Some? ==> s.view[step.v].value.hash.Some?)
    ensures IsStale(s, step) <==> s.view[step.v].None? || s.view[step.v].value.hash != repo[step.v].hash
  {}

  /** How many reconciles of a run find their session stale. */
  function StaleRuns(s: SessionView, repo: Repository, steps: seq<SessionStep>): nat
    decreases |steps|
  {
    if steps == [] then 0 else
      (if IsStale(s, steps[0]) then 1 else 0) + StaleRuns(NextSession(s, repo, steps[0]), repo, steps[1..])
  }

  /** All that the session remembers is still so. */
  ghost predicate Fresh(s: SessionView, repo: Repository) {
    s.Open? ==> forall v :: v in s.view ==> s.view[v] == Find(repo, v)
  }

  lemma FreshStaysFresh(s: SessionView, repo: Repository, step: SessionStep)
    requires Fresh(s, repo) && Sees(repo, step)
    ensures Fresh(NextSession(s, repo, step), repo) && !IsStale(s, step)
  {}

  lemma {:induction false} FreshNeverStale(s: SessionView, repo: Repository, steps: seq<SessionStep>)
    requires Fresh(s, repo) && forall i :: 0 <= i < |steps| ==> Sees(repo, steps[i])
    ensures StaleRuns(s, repo, steps) == 0
    decreases |steps|
  {
    if steps != [] {
      FreshStaysFresh(s, repo, steps[0]);
      FreshNeverStale(NextSession(s, repo, steps[0]), repo, steps[1..]);
    }
  }

  /** Once the live repository stops changing, at most one reconcile fails because of a stale session, whatever the
      session had frozen and whoever else uses it: that reconcile closes the session, and the next one starts fresh. */
  lemma {:induction false} StaleSessionsHeal(s: SessionView, repo: Repository, steps: seq<SessionStep>)
    requires forall i :: 0 <= i < |steps| ==> Sees(repo, steps[i])
    ensures StaleRuns(s, repo, steps) <= 1
    decreases |steps|
  {
    if steps != [] {
      var s' := NextSession(s, repo, steps[0]);
      if IsStale(s, steps[0]) {
        FreshNeverStale(s', repo, steps[1..]);
      } else {
        StaleSessionsHeal(s', repo, steps[1..]);
      }
    }
  }

  // ---------------------------------------------------------------------------------------------------
  // The status over a run
  // ---------------------------------------------------------------------------------------------------

  /** One reconcile: what it met, the session as others left it, and the version it chose, if it got that far. */
  datatype Event = Event(spec: Spec, env: Environment, session: SessionView, chosen: Option<string>)

  /** The version chosen is the latest valid one listed, and the policy lets it replace the deployed one. */
  ghost predicate Possible(lib: Library, current: string, e: Event) {
    e.chosen.Some? ==>
      && IsLatest(lib, e.spec.constraint, e.env.live.listing, e.chosen.value)
      && MayReplace(lib, e.spec.policy, e.env.live.contents, current, e.chosen.value)
  }

  function StatusAfter(st: Status, e: Event): Status {
    if e.chosen.None? then st.(ready := false) else AfterChoice(st, Opened(e.session).view, e.env, e.chosen.value).0
  }

  /** The statuses before, between and after the reconciles of a run. Specs, repositories and sessions may change in
      any way from one to the next. */
  ghost predicate IsHistory(lib: Library, events: seq<Event>, statuses: seq<Status>) {
    |statuses| == |events| + 1 &&
    forall i :: 0 <= i < |events| ==>
      Possible(lib, statuses[i].version, events[i]) && statuses[i + 1] == StatusAfter(statuses[i], events[i])
  }

  /** Every reconcile continues a history. */
  method ReconcileContinuesHistory(r: Reconciler, spec: Spec, env: Environment, ghost events: seq<Event>,
                                   ghost statuses: seq<Status>)
    returns (chosen: Option<string>)
    requires IsHistory(r.lib, events, statuses) && statuses[|events|] == r.State()
    modifies r
    ensures IsHistory(r.lib, events + [Event(spec, env, old(r.session), chosen)], statuses + [r.State()])
  {
    ghost var e := Event(spec, env, r.session, None);
    var outcome, c := r.Reconcile(spec, env);
    chosen := c;
    e := e.(chosen := c);
    assert Possible(r.lib, statuses[|events|].version, e) && r.State() == StatusAfter(statuses[|events|], e);
  }

  /** The reconcile compared this version and found the hash on both sides, in what the session had cached and in
      what the live repository answered. */
  ghost predicate Agreed(e: Event, v: string, hash: string) {
    var view := LookUp(Opened(e.session).view, e.env.fetched, v);
    && e.chosen == Some(v) && e.env.verified
    && view[v].Some? && view[v].value.hash == Some(hash)
    && v in e.env.compared && e.env.compared[v].hash == Some(hash)
  }

  lemma StoredOnlyIfAgreed(st: Status, e: Event)
    ensures var st' := StatusAfter(st, e);
      (st'.version == st.version && st'.digest == st.digest) || (st'.digest.Some? && Agreed(e, st'.version, st'.digest.value))
  {}

  /** Over any run from an empty status: the version and digest in a status are those of one reconcile of the run, in
      which the cached and the live descriptor of that version both had that hash. */
  lemma {:induction false} StoredDigestWasCommon(lib: Library, events: seq<Event>, statuses: seq<Status>, j: nat)
    requires IsHistory(lib, events, statuses) && statuses[0] == Status("", None, false) && j < |statuses|
    ensures statuses[j].digest.Some? ==>
      exists i :: 0 <= i < j && Agreed(events[i], statuses[j].version, statuses[j].digest.value)
    ensures statuses[j].digest.None? ==> statuses[j].version == ""
    decreases j
  {
    if j > 0 {
      StoredDigestWasCommon(lib, events, statuses, j - 1);
      StoredOnlyIfAgreed(statuses[j - 1], events[j - 1]);
      var before, now := statuses[j - 1], statuses[j];
      if now.digest.Some? && !Agreed(events[j - 1], now.version, now.digest.value) {
        var i :| 0 <= i < j - 1 && Agreed(events[i], before.version, before.digest.value);
        assert Agreed(events[i], now.version, now.digest.value);
      }
    }
  }

  /** The outcome of one reconcile of a run. */
  function OutcomeOf(st: Status, e: Event): Outcome {
    if e.chosen.None? then VersionNotDetermined else AfterChoice(st, Opened(e.session).view, e.env, e.chosen.value).2
  }

  /** A reconcile leaves the object Ready exactly if it went through, verification included, or if it was Ready and the
      session turned out to be stale, which is left to the next reconcile. */
  lemma ReadyIff(st: Status, e: Event)
    ensures StatusAfter(st, e).ready <==> OutcomeOf(st, e) == Ready || (st.ready && Stale(OutcomeOf(st, e)))
    ensures OutcomeOf(st, e) == Ready <==>
      e.chosen.Some? && StatusAfter(st, e).digest.Some? && StatusAfter(st, e).version == e.chosen.value
      && Agreed(e, e.chosen.value, StatusAfter(st, e).digest.value)
      && !(e.chosen.value !in Opened(e.session).view && e.env.sessionFails) && !e.env.comparisonFails
  {}

  /** Reconcile i went through with what the status at j says, and all reconciles from then on were stale. */
  ghost predicate ReadySince(events: seq<Event>, statuses: seq<Status>, i: nat, j: nat)
    requires i < j < |statuses| && |statuses| == |events| + 1
  {
    && OutcomeOf(statuses[i], events[i]) == Ready && statuses[j].digest.Some?
    && Agreed(events[i], statuses[j].version, statuses[j].digest.value)
    && forall k :: i < k < j ==> Stale(OutcomeOf(statuses[k], events[k]))
  }

  lemma StaleChangesNothing(st: Status, e: Event)
    requires Stale(OutcomeOf(st, e))
    ensures StatusAfter(st, e) == st
  {}

  /** Over any run: a Ready status is that of the last reconcile that went through, which compared and verified what
      the status says, and only reconciles with a stale session came after it. */
  lemma {:induction false} ReadyRestsOnVerification(lib: Library, events: seq<Event>, statuses: seq<Status>, j: nat)
    requires IsHistory(lib, events, statuses) && !statuses[0].ready && j < |statuses| && statuses[j].ready
    ensures exists i :: 0 <= i < j && ReadySince(events, statuses, i, j)
    decreases j
  {
    if j > 0 {
      var st, e := statuses[j - 1], events[j - 1];
      assert statuses[j] == StatusAfter(st, e);
      ReadyIff(st, e);
      if OutcomeOf(st, e) == Ready {
        assert ReadySince(events, statuses, j - 1, j);
      } else {
        StaleChangesNothing(st, e);
        ReadyRestsOnVerification(lib, events, statuses, j - 1);
        var i :| 0 <= i < j - 1 && ReadySince(events, statuses, i, j - 1);
        assert ReadySince(events, statuses, i, j);
      }
    }
  }

  lemma StepMayReplace(lib: Library, events: seq<Event>, statuses: seq<Status>, i: nat)
    requires IsHistory(lib, events, statuses) && i < |events| && statuses[i + 1].version != statuses[i].version
    ensures events[i].chosen == Some(statuses[i + 1].version)
    ensures IsLatest(lib, events[i].spec.constraint, events[i].env.live.listing, statuses[i + 1].version)
    ensures MayReplace(lib, events[i].spec.policy, events[i].env.live.contents, statuses[i].version, statuses[i + 1].version)
  {
    assert Possible(lib, statuses[i].version, events[i]) && statuses[i + 1] == StatusAfter(statuses[i], events[i]);
    StoredOnlyIfAgreed(statuses[i], events[i]);
  }

  /** While the policy is Deny, the deployed version never goes down in precedence. */
  lemma NeverDowngradedUnderDeny(lib: Library, events: seq<Event>, statuses: seq<Status>, i: nat, j: nat)
    requires lib.parse("").None?
    requires IsHistory(lib, events, statuses) && i <= j < |statuses|
    requires forall k :: i <= k < j ==> events[k].spec.policy == Deny
    ensures var v, w := statuses[i].version, statuses[j].version;
      v == "" || (w != "" && (w == v || AtMost(lib, v, w)))
  {
    var v, w := statuses[i].version, statuses[j].version;
    forall k | i <= k < j ensures !LowersWithPermission(lib, events[k], statuses[k].version, statuses[k + 1].version) {
      assert events[k].spec.policy == Deny;
    }
    if v != "" && w != v && !AtMost(lib, v, w) {
      DowngradesArePermitted(lib, events, statuses, i, j);
    }
  }

  /** A reconcile that lowers the version, to the latest valid one listed, as its policy or, under Allow, the label of
      the version that is replaced permits. */
  ghost predicate LowersWithPermission(lib: Library, e: Event, v: string, w: string) {
    && v != "" && !AtMost(lib, v, w)
    && IsLatest(lib, e.spec.constraint, e.env.live.listing, w)
    && (e.spec.policy == Enforce ||
        (e.spec.policy == Allow && v in e.env.live.contents && Permits(lib, e.env.live.contents[v].allowance, w)))
  }

  lemma StepLowers(lib: Library, events: seq<Event>, statuses: seq<Status>, k: nat, v: string)
    requires lib.parse("").None? && v != ""
    requires IsHistory(lib, events, statuses) && k < |events|
    requires var u, w := statuses[k].version, statuses[k + 1].version;
      (u == v || AtMost(lib, v, u)) && w != v && !AtMost(lib, v, w)
    ensures LowersWithPermission(lib, events[k], statuses[k].version, statuses[k + 1].version)
  {
    var u, w := statuses[k].version, statuses[k + 1].version;
    StepMayReplace(lib, events, statuses, k);
    if AtMost(lib, u, w) && AtMost(lib, v, u) {
      Transitive(lib.parse(v).value, lib.parse(u).value, lib.parse(w).value);
    }
  }

  /** If a version is not at least as high as an earlier one, some reconcile in between lowered it with permission. */
  lemma {:induction false} DowngradesArePermitted(lib: Library, events: seq<Event>, statuses: seq<Status>,
      i: nat, j: nat)
    requires lib.parse("").None?
    requires IsHistory(lib, events, statuses) && i <= j < |statuses|
    requires var v, w := statuses[i].version, statuses[j].version; v != "" && w != v && !AtMost(lib, v, w)
    ensures exists k :: i <= k < j && LowersWithPermission(lib, events[k], statuses[k].version, statuses[k + 1].version)
    decreases j - i
  {
    var v, u := statuses[i].version, statuses[j - 1].version;
    if u != v && !AtMost(lib, v, u) {
      DowngradesArePermitted(lib, events, statuses, i, j - 1);
      var k :| i <= k < j - 1 && LowersWithPermission(lib, events[k], statuses[k].version, statuses[k + 1].version);
    } else {
      StepLowers(lib, events, statuses, j - 1, v);
    }
  }
}
