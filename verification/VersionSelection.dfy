/** Which version of a component is to be deployed: the latest one in the live repository that satisfies the
    constraint, subject to the downgrade policy. */
module VersionSelection {
  import opened Results
  import opened SemVer

  /** Library calls as parameters: parsing versions, checking constraints and matching regular expressions.
      Whether the library rejects a list with an unparsable entry or skips the entry is left open. */
  datatype Library = Library(
    parse: string -> Option<Version>,
    validConstraint: string -> bool, satisfies: (string, Version) -> bool,
    validRegexp: string -> bool, matches: (string, string) -> bool,
    rejectsUnparsable: bool)

  datatype Policy = Deny | Enforce | Allow | OtherPolicy

  datatype Label = NoLabel | Malformed | Downgradable(constraint: string)

  /** A component descriptor: its normalised hash if it can be computed, whether that hash is stable, and the
      label that permits downgrades. */
  datatype Descriptor = Descriptor(hash: Option<string>, normalizeable: bool, allowance: Label)

  /** The versions of one component in a repository. */
  type Repository = map<string, Descriptor>

  datatype Spec = Spec(constraint: string, filter: string, policy: Policy)

  datatype Error =
    | InvalidConstraint
    | UnparsableVersion
    | NoValidVersion
    | ComponentNotFound
    | ListFailed
    | NothingListed
    | InvalidFilter
    | UnparsableStatus
    | DowngradeDenied
    | UnknownPolicy
    | CurrentNotFound
    | LatestNotFound
    | LabelUnusable
    | NotDowngradable

  // ---------------------------------------------------------------------------------------------------
  // The latest valid version
  // ---------------------------------------------------------------------------------------------------

  predicate Candidate(lib: Library, constraint: string, v: string) {
    lib.parse(v).Some? && lib.satisfies(constraint, lib.parse(v).value)
  }

  /** Precedence of two version strings, where both can be parsed. */
  predicate AtMost(lib: Library, v: string, w: string) {
    lib.parse(v).Some? && lib.parse(w).Some? && Leq(lib.parse(v).value, lib.parse(w).value)
  }

  ghost predicate IsLatest(lib: Library, constraint: string, versions: seq<string>, v: string) {
    && v in versions && Candidate(lib, constraint, v)
    && forall w :: w in versions && Candidate(lib, constraint, w) ==> AtMost(lib, w, v)
  }

  predicate Ascending(lib: Library, s: seq<string>) {
    forall i, j :: 0 <= i < j < |s| ==> AtMost(lib, s[i], s[j])
  }

  /** The library's list of matching versions, lowest first. */
  method MatchVersionStrings(lib: Library, versions: seq<string>,
                             constraint: string) returns (r: Result<seq<string>, Error>)
    ensures r.Err? <==> lib.rejectsUnparsable && exists v :: v in versions && lib.parse(v).None?
    ensures r.Err? ==> r.error == UnparsableVersion
    ensures r.Ok? ==> Ascending(lib, r.value) && forall v :: v in r.value <==> v in versions && Candidate(lib, constraint, v)
  {
    var found: seq<string> := [];
    for i := 0 to |versions|
      invariant Ascending(lib, found)
      invariant forall v :: v in found <==> v in versions[..i] && Candidate(lib, constraint, v)
      invariant lib.rejectsUnparsable ==> forall v :: v in versions[..i] ==> lib.parse(v).Some?
    {
      assert versions[..i + 1] == versions[..i] + [versions[i]];
      if lib.rejectsUnparsable && lib.parse(versions[i]).None? {
        assert versions[i] in versions;
        return Err(UnparsableVersion);
      }
      if Candidate(lib, constraint, versions[i]) {
        found := InsertAscending(lib, found, versions[i]);
      }
    }
    assert versions[..|versions|] == versions;
    r := Ok(found);
  }

  method InsertAscending(lib: Library, s: seq<string>, v: string) returns (r: seq<string>)
    requires Ascending(lib, s) && lib.parse(v).Some? && forall w :: w in s ==> lib.parse(w).Some?
    ensures Ascending(lib, r) && forall w :: w in r <==> w == v || w in s
  {
    var i := |s|;
    while i > 0 && !AtMost(lib, s[i - 1], v)
      invariant 0 <= i <= |s|
      invariant forall j :: i <= j < |s| ==> AtMost(lib, v, s[j])
    {
      Total(lib.parse(s[i - 1]).value, lib.parse(v).value);
      i := i - 1;
    }
    r := s[..i] + [v] + s[i..];
    forall j | 0 <= j < i ensures AtMost(lib, s[j], v) {
      if j < i - 1 {
        Transitive(lib.parse(s[j]).value, lib.parse(s[i - 1]).value, lib.parse(v).value);
      }
    }
    InsertedAt(lib, s, i, v);
  }

  lemma InsertedAt(lib: Library, s: seq<string>, i: nat, v: string)
    requires Ascending(lib, s) && i <= |s|
    requires forall j :: 0 <= j < i ==> AtMost(lib, s[j], v)
    requires forall j :: i <= j < |s| ==> AtMost(lib, v, s[j])
    ensures Ascending(lib, s[..i] + [v] + s[i..])
    ensures forall w :: w in s[..i] + [v] + s[i..] <==> w == v || w in s
  {
    var r := s[..i] + [v] + s[i..];
    forall a, b | 0 <= a < b < |r| ensures AtMost(lib, r[a], r[b]) {
      assert a < i ==> r[a] == s[a];
      assert a > i ==> r[a] == s[a - 1];
      assert b < i ==> r[b] == s[b];
      assert b > i ==> r[b] == s[b - 1];
    }
    assert s == s[..i] + s[i..];
  }

  /** The matching versions in order. */
  function Matching(versions: seq<string>, filter: string -> bool): seq<string> {
    if versions == [] then [] else (if filter(versions[0]) then [versions[0]] else []) + Matching(versions[1..], filter)
  }

  /** What the filter makes of the list: the matching versions are appended to all of them. */
  function Filtered(versions: seq<string>, filter: string -> bool): seq<string> {
    versions + Matching(versions, filter)
  }

  lemma {:induction false} MatchingMeans(versions: seq<string>, filter: string -> bool, v: string)
    ensures v in Matching(versions, filter) <==> v in versions && filter(v)
  {
    if versions != [] { MatchingMeans(versions[1..], filter, v); }
  }

  lemma {:induction false} MatchingAppend(versions: seq<string>, filter: string -> bool, v: string)
    ensures Matching(versions + [v], filter) == Matching(versions, filter) + (if filter(v) then [v] else [])
  {
    if versions == [] {
      assert ([v])[1..] == [] && [] + [v] == [v];
    } else {
      assert (versions + [v])[1..] == versions[1..] + [v];
      MatchingAppend(versions[1..], filter, v);
    }
  }

  lemma FilteredIsAll(versions: seq<string>, filter: string -> bool)
    ensures forall v :: v in Filtered(versions, filter) <==> v in versions
  {
    forall v { MatchingMeans(versions, filter, v); }
  }

  /** What a selection returns: a latest version of the filtered list, if the library accepts list and constraint and
      some version satisfies it. */
  ghost predicate Selects(lib: Library, versions: seq<string>, constraint: string, filter: string -> bool,
                          r: Result<string, Error>) {
    && (r.Ok? ==> IsLatest(lib, constraint, Filtered(versions, filter), r.value))
    && (r.Ok? <==>
          && lib.validConstraint(constraint)
          && (lib.rejectsUnparsable ==> forall v :: v in versions ==> lib.parse(v).Some?)
          && exists v :: v in versions && Candidate(lib, constraint, v))
  }

  /** The filter does not narrow the list, so the result is a latest one of all listed versions. */
  method GetLatestValidVersion(lib: Library, versions: seq<string>, constraint: string, filter: string -> bool)
    returns (r: Result<string, Error>)
    ensures Selects(lib, versions, constraint, filter, r)
    ensures r.Ok? ==> IsLatest(lib, constraint, versions, r.value)
  {
    if !lib.validConstraint(constraint) { return Err(InvalidConstraint); }
    var filtered := versions;
    for i := 0 to |versions|
      invariant filtered == versions + Matching(versions[..i], filter)
    {
      assert versions[..i + 1] == versions[..i] + [versions[i]];
      MatchingAppend(versions[..i], filter, versions[i]);
      if filter(versions[i]) {
        filtered := filtered + [versions[i]];
      }
    }
    assert versions[..|versions|] == versions;
    FilteredIsAll(versions, filter);
    var vers := MatchVersionStrings(lib, filtered, constraint);
    if vers.Err? { return Err(vers.error); }
    if |vers.value| == 0 { return Err(NoValidVersion); }
    var last := vers.value[|vers.value| - 1];
    assert last in vers.value;
    forall w | w in filtered && Candidate(lib, constraint, w) ensures AtMost(lib, w, last) {
      assert w in vers.value;
      Reflexive(lib.parse(last).value);
    }
    r := Ok(last);
  }

  // ---------------------------------------------------------------------------------------------------
  // When the filter is respected
  // ---------------------------------------------------------------------------------------------------

  /** The filter accepts `low` and rejects `high`, both satisfy the constraint, and `high` is selected. */
  lemma FilterDoesNotNarrow(lib: Library, constraint: string, filter: string -> bool, low: string, high: string,
                            r: Result<string, Error>)
    requires lib.validConstraint(constraint) && filter(low) && !filter(high)
    requires Candidate(lib, constraint, low) && Candidate(lib, constraint, high) && !AtMost(lib, high, low)
    requires Selects(lib, [low, high], constraint, filter, r)
    ensures r == Ok(high)
  {
    FilteredIsAll([low, high], filter);
    assert low in [low, high] && high in [low, high];
  }

  /** Some candidate that the filter accepts is higher than every candidate that it rejects. */
  ghost predicate AcceptedAbove(lib: Library, constraint: string, versions: seq<string>, filter: string -> bool) {
    exists v :: v in versions && Candidate(lib, constraint, v) && filter(v)
      && forall w :: w in versions && Candidate(lib, constraint, w) && !filter(w) ==> !AtMost(lib, v, w)
  }

  /** Some candidate that the filter accepts is at least as high as every candidate that it rejects. */
  ghost predicate AcceptedOnTop(lib: Library, constraint: string, versions: seq<string>, filter: string -> bool) {
    exists v :: v in versions && Candidate(lib, constraint, v) && filter(v)
      && forall w :: w in versions && Candidate(lib, constraint, w) && !filter(w) ==> AtMost(lib, w, v)
  }

  ghost predicate DistinctPrecedence(lib: Library, constraint: string, versions: seq<string>) {
    forall v, w :: v in versions && w in versions && Candidate(lib, constraint, v) && Candidate(lib, constraint, w) ==>
      AtMost(lib, v, w) && AtMost(lib, w, v) ==> v == w
  }

  lemma AtMostTransitive(lib: Library, u: string, v: string, w: string)
    requires AtMost(lib, u, v) && AtMost(lib, v, w)
    ensures AtMost(lib, u, w)
  {
    Transitive(lib.parse(u).value, lib.parse(v).value, lib.parse(w).value);
  }

  lemma {:induction false} LatestExists(lib: Library, constraint: string, versions: seq<string>, v: string)
    requires v in versions && Candidate(lib, constraint, v)
    ensures exists c :: IsLatest(lib, constraint, versions, c) && AtMost(lib, v, c)
    decreases |versions|
  {
    Reflexive(lib.parse(v).value);
    if u :| u in versions && Candidate(lib, constraint, u) && !AtMost(lib, u, v) {
      Total(lib.parse(u).value, lib.parse(v).value);
      var rest := Matching(versions, w => w != v);
      MatchingShrinks(versions, v);
      MatchingMeans(versions, w => w != v, u);
      LatestExists(lib, constraint, rest, u);
      var c :| IsLatest(lib, constraint, rest, c) && AtMost(lib, u, c);
      AtMostTransitive(lib, v, u, c);
      forall w ensures w in rest <==> w in versions && w != v { MatchingMeans(versions, w => w != v, w); }
      assert IsLatest(lib, constraint, versions, c);
    } else {
      assert IsLatest(lib, constraint, versions, v);
    }
  }

  lemma {:induction false} MatchingShrinks(versions: seq<string>, v: string)
    ensures |Matching(versions, w => w != v)| <= |versions|
    ensures v in versions ==> |Matching(versions, w => w != v)| < |versions|
  {
    if versions != [] { MatchingShrinks(versions[1..], v); }
  }

  /** With candidates of distinct precedence, the selected version matches the filter if and only if some accepted
      candidate is higher than every rejected one. */
  lemma FilterIsRespectedIff(lib: Library, constraint: string, versions: seq<string>, filter: string -> bool,
                             r: Result<string, Error>)
    requires Selects(lib, versions, constraint, filter, r) && r.Ok?
    requires DistinctPrecedence(lib, constraint, versions)
    ensures filter(r.value) <==> AcceptedAbove(lib, constraint, versions, filter)
  {
    FilteredIsAll(versions, filter);
    var c := r.value;
    if filter(c) {
      forall w | w in versions && Candidate(lib, constraint, w) && !filter(w) ensures !AtMost(lib, c, w) {
        assert AtMost(lib, w, c) && w != c;
      }
    }
  }

  /** With ties, and a latest version chosen arbitrarily: it is sure to match exactly if some accepted candidate is
      higher than every rejected one. */
  lemma FilterIsSurelyRespectedIff(lib: Library, constraint: string, versions: seq<string>,
                                   filter: string -> bool, v: string)
    requires v in versions && Candidate(lib, constraint, v)
    ensures (forall c :: IsLatest(lib, constraint, Filtered(versions, filter), c) ==> filter(c)) <==>
      AcceptedAbove(lib, constraint, versions, filter)
  {
    FilteredIsAll(versions, filter);
    var all := Filtered(versions, filter);
    if forall c :: IsLatest(lib, constraint, all, c) ==> filter(c) {
      LatestExists(lib, constraint, versions, v);
      var top :| IsLatest(lib, constraint, versions, top);
      assert IsLatest(lib, constraint, all, top);
      forall w | w in versions && Candidate(lib, constraint, w) && AtMost(lib, top, w) ensures filter(w) {
        forall u | u in versions && Candidate(lib, constraint, u) ensures AtMost(lib, u, w) {
          AtMostTransitive(lib, u, top, w);
        }
        assert IsLatest(lib, constraint, all, w);
      }
    }
  }

  /** And it may match exactly if some accepted candidate is at least as high as every rejected one. */
  lemma FilterMayBeRespectedIff(lib: Library, constraint: string, versions: seq<string>, filter: string -> bool)
    ensures (exists c :: IsLatest(lib, constraint, Filtered(versions, filter), c) && filter(c)) <==>
      AcceptedOnTop(lib, constraint, versions, filter)
  {
    FilteredIsAll(versions, filter);
    var all := Filtered(versions, filter);
    if AcceptedOnTop(lib, constraint, versions, filter) {
      var v :| v in versions && Candidate(lib, constraint, v) && filter(v)
        && forall w :: w in versions && Candidate(lib, constraint, w) && !filter(w) ==> AtMost(lib, w, v);
      LatestExists(lib, constraint, versions, v);
      var c :| IsLatest(lib, constraint, versions, c) && AtMost(lib, v, c);
      if filter(c) {
        assert IsLatest(lib, constraint, all, c);
      } else {
        forall u | u in versions && Candidate(lib, constraint, u) ensures AtMost(lib, u, v) {
          AtMostTransitive(lib, u, c, v);
        }
        assert IsLatest(lib, constraint, all, v);
      }
    }
  }

  // ---------------------------------------------------------------------------------------------------
  // The downgrade policy
  // ---------------------------------------------------------------------------------------------------

  method IsDowngradable(lib: Library, current: Descriptor, latest: string) returns (r: Result<bool, Error>)
    ensures r.Ok? && r.value <==> Permits(lib, current.allowance, latest)
    ensures r.Err? ==> r.error == LabelUnusable
    ensures r.Err? <==>
      || current.allowance.Malformed?
      || (current.allowance.Downgradable? && (!lib.validConstraint(current.allowance.constraint) || lib.parse(latest).None?))
  {
    match current.allowance
    case NoLabel => r := Ok(false);
    case Malformed => r := Err(LabelUnusable);
    case Downgradable(constraint) =>
      if !lib.validConstraint(constraint) { return Err(LabelUnusable); }
      var v := lib.parse(latest);
      if v.None? { return Err(LabelUnusable); }
      r := Ok(lib.satisfies(constraint, v.value));
  }

  /** The label on a deployed version allows it to be replaced by a lower one. */
  predicate Permits(lib: Library, allowance: Label, latest: string) {
    allowance.Downgradable? && lib.validConstraint(allowance.constraint) && Candidate(lib, allowance.constraint, latest)
  }

  /** When `latest` may replace `current`. The empty string is the status of an object that was never reconciled. */
  predicate MayReplace(lib: Library, policy: Policy, contents: Repository, current: string, latest: string) {
    || current == ""
    || AtMost(lib, current, latest)
    || (lib.parse(current).Some? && policy == Enforce)
    || (lib.parse(current).Some? && policy == Allow && current in contents && latest in contents
        && Permits(lib, contents[current].allowance, latest))
  }

  /** The policies on a deployed version that can be parsed, clause by clause: a version at least as high is accepted
      whatever the policy says; a lower one never under Deny or an unknown policy, always under Enforce, and under Allow
      exactly if the deployed version is found with a label whose constraint the new one satisfies. */
  lemma PolicyDecides(lib: Library, policy: Policy, contents: Repository, current: string, latest: string)
    requires current != "" && lib.parse(current).Some? && lib.parse(latest).Some?
    ensures Leq(lib.parse(current).value, lib.parse(latest).value) ==> MayReplace(lib, policy, contents, current, latest)
    ensures !Leq(lib.parse(current).value, lib.parse(latest).value) ==>
      (MayReplace(lib, policy, contents, current, latest) <==>
        match policy
        case Deny => false
        case Enforce => true
        case OtherPolicy => false
        case Allow =>
          && current in contents && latest in contents && contents[current].allowance.Downgradable?
          && lib.validConstraint(contents[current].allowance.constraint)
          && lib.satisfies(contents[current].allowance.constraint, lib.parse(latest).value))
  {}

  /** The empty expression accepts everything. */
  function FilterOf(lib: Library, regexp: string): string -> bool {
    v => regexp == "" || lib.matches(regexp, v)
  }

  lemma FilterMeans(lib: Library, regexp: string, v: string)
    ensures FilterOf(lib, "")(v)
    ensures regexp != "" ==> (FilterOf(lib, regexp)(v) <==> lib.matches(regexp, v))
  {}

  /** What the live repository answers to one reconcile. */
  datatype Answers = Answers(found: bool, listed: bool, listing: seq<string>, contents: Repository)

  /** `latest` reports which version was selected, if selection got that far. */
  method DetermineEffectiveVersion(lib: Library, spec: Spec, current: string, live: Answers)
    returns (r: Result<string, Error>, latest: Option<string>)
    ensures latest.Some? ==> IsLatest(lib, spec.constraint, live.listing, latest.value)
    ensures latest.Some? ==>
      Selects(lib, live.listing, spec.constraint, FilterOf(lib, spec.filter), Ok(latest.value))
    ensures latest.Some? && (lib.parse(current).Some? || current == "") ==>
      (r.Ok? <==> MayReplace(lib, spec.policy, live.contents, current, latest.value))
    ensures r.Ok? ==> latest == Some(r.value) && MayReplace(lib, spec.policy, live.contents, current, r.value)
    ensures latest.None? <==>
      || !live.found || !live.listed || live.listing == []
      || (spec.filter != "" && !lib.validRegexp(spec.filter))
      || !lib.validConstraint(spec.constraint)
      || (lib.rejectsUnparsable && exists v :: v in live.listing && lib.parse(v).None?)
      || !exists v :: v in live.listing && Candidate(lib, spec.constraint, v)
  {
    latest := None;
    if !live.found { return Err(ComponentNotFound), None; }
    if !live.listed { return Err(ListFailed), None; }
    if live.listing == [] { return Err(NothingListed), None; }
    if spec.filter != "" && !lib.validRegexp(spec.filter) { return Err(InvalidFilter), None; }
    var selected := GetLatestValidVersion(lib, live.listing, spec.constraint, FilterOf(lib, spec.filter));
    if selected.Err? { return Err(selected.error), None; }
    latest := Some(selected.value);
    r := Judge(lib, spec.policy, live.contents, current, selected.value);
  }

  method Judge(lib: Library, policy: Policy, contents: Repository, current: string, latest: string)
    returns (r: Result<string, Error>)
    requires lib.parse(latest).Some?
    ensures r.Ok? ==> r.value == latest && MayReplace(lib, policy, contents, current, latest)
    ensures r.Err? && (current == "" || lib.parse(current).Some?) ==> !MayReplace(lib, policy, contents, current, latest)
    ensures r == Err(DowngradeDenied) ==> policy == Deny && AtMost(lib, latest, current)
  {
    if current == "" { return Ok(latest); }
    var currentSemver := lib.parse(current);
    if currentSemver.None? { return Err(UnparsableStatus); }
    if Leq(currentSemver.value, lib.parse(latest).value) { return Ok(latest); }
    match policy
    case Deny =>
      Total(currentSemver.value, lib.parse(latest).value);
      r := Err(DowngradeDenied);
    case Enforce => r := Ok(latest);
    case Allow =>
      if current !in contents { return Err(CurrentNotFound); }
      if latest !in contents { return Err(LatestNotFound); }
      var downgradable := IsDowngradable(lib, contents[current], latest);
      if downgradable.Err? { return Err(downgradable.error); }
      r := if downgradable.value then Ok(latest) else Err(NotDowngradable);
    case OtherPolicy => r := Err(UnknownPolicy);
  }
}
