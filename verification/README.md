# Verified model of the OCM Kubernetes toolkit controllers

A Dafny 4.11 model of the controllers of `ocm-k8s-toolkit` and of the caches and keys they rest on.
`dafny verify dfyconfig.toml` checks the whole project.

| file | what it models |
|---|---|
| `FinalizerProtocol.dfy` | readiness and finalizers between Repository, Component, Resource and Deployer, as interleaved API calls |
| `EffectiveConfig.dfy` | resolution of configuration references through the statuses of other objects, over runs of reconciles |
| `ConfigHash.dfy`, `Bytes.dfy`, `Bags.dfy` | hashes of configuration objects and repository specifications, and the session keys made of them |
| `Lru.dfy`, `ContextCache.dfy`, `UnlockedClear.dfy` | the two coupled LRU tables of OCM contexts and sessions, and what becomes of them when they are cleared in the middle of a call |
| `SemVer.dfy`, `VersionSelection.dfy`, `ComponentController.dfy` | version precedence (section 11 of Semantic Versioning 2.0.0), version selection, downgrade policy and stale sessions |
| `InformerManager.dfy`, `Untrack.dfy` | the table of dynamic watches, and the deletion of a Deployer through it |
| `Replication.dfy` | the bounded history of transfers and the reconciler that relies on it |
| `DigestCache.dfy`, `DeployerController.dfy`, `DeployedStatus.dfy`, `DigestSpec.dfy` | the digest-keyed cache of manifests, applying copies of the cached objects, recording references, the textual form of digests |

What the source changes in place is a class, and each of its methods is tied to a specification function on values.
What it keeps over a run, or under interleavings, is then proved about that function: `Apply` is one step, `Run` any
sequence of steps, and `Inv` the invariant.

## Assumptions

- The API server answers gets and lists from current state, and a patch or update of an object that has been replaced
  by another of the same name fails. The references in a specification do not change during a run.
- SHA-256 is a parameter `H`. Where injectivity is needed, it is assumed only of the inputs at hand (`CollisionFree`),
  together with its length of 32 bytes, or only that the hash of the empty string is not empty.
- Parsing of versions, constraints, regular expressions, YAML and JSON is library work and a parameter. Whether the
  version library rejects a list because of an unparsable entry or skips the entry is left open (`rejectsUnparsable`).
- Calls to registries and the cluster become inputs that say what they answered or that they failed.
- One `Register` or `Unregister` is one step, as with a single worker. In `ContextCache.dfy` a call of `GetSession` is one
  step too, and each half of `Clear`, which takes no lock, may come between calls; `UnlockedClear.dfy` lets it come in the
  middle of one.

## Findings

- A Replication that is Ready and recorded is skipped before it resolves its configuration. If it stored its
  configuration before the object it refers to did, it keeps an incomplete one (`SkippedReplicationStaysBehind`); the
  exact condition is `SettledIffReferentsWereReady`.
- The filter does not narrow the candidates: matching versions are appended to the full list, so a version that the
  filter rejects is selected unless some accepted one is higher (`FilterDoesNotNarrow`, `FilterIsRespectedIff`).
- `HashMap`'s encoding is decodable exactly for data without NUL bytes; with them, different maps share a hash
  (`EncodingRoundTrip`, `NulByteCollision`).
- `hashBytesHex` does not hash: it prints the bytes followed by a constant. So it is injective (`RepoHashIsNoHash`,
  `RepoHashInjective`).
- The kind of a configuration object is not part of its hash: a Secret and a ConfigMap that hold the same count as the same
  configuration (`KindIsNotHashed`).
- The index entry of a Deployer is its raw reference. It agrees with the Resource that the reconciler resolves exactly if
  the reference names a namespace or the Deployer has none; the cluster scope of Deployers saves it
  (`DeployerIndexAgrees`).
- Stopping a watch stops the watches of its kind in all namespaces; the others stay in the table, and registering them
  again does nothing (`UnregisterStopsKind`, `StoppedWatchIsNotRenewed`, `RegisterActivatesIff`). So an unregistration
  lowers the number of active watches exactly if one of its kind was still active.
- A registration whose handler cannot be attached leaves an informer behind that no watch refers to
  (`FailedAddLeavesInformer`); an unregistration that fails after removing the handler leaves a watch without one
  (`HandlerAttachedIff`).
- Parents that share a watch keep each other's entry in the table for good; the watch can still be stopped through an
  unshared one of its kind (`RemovableIff`, `StoppableIff`, `SharedWatchesAreNeverReleased`).
- A registration of the same parent kind that is processed while an Untrack runs leaves an active watch behind when the
  finalizer is dropped (`RegistrationDefeatsUntrack`, `FinalizerOutlivesWatches`).
- A watch that is gone from the table does not count as stopped, so an Untrack that listed it before asks once more
  (`GoneWatchCostsARetry`).
- `Clear` takes no lock. When it clears the contexts in the middle of a call, the call returns a session of a finalized
  context, which later calls then get together with a new one (`ClearInBetweenBreaks`); otherwise nothing is lost
  (`RunKeeps`, `OwnedUnlessInBetween`).
- A repeated failure drops the oldest record before it is recognized, so it can push out two records and leaves the
  history below its capacity; lowering the capacity shortens it only through repeated failures
  (`RepeatedFailuresEvictAtMostTwo`, `FitsAgainIff`). A negative capacity panics exactly on an empty history.
- References to deployed objects are taken from the cached objects, not from the copies that the cluster answered into.
  As long as manifests carry no UIDs, a Deployer records only the last object (`WithoutUidsOnlyTheLastIsRecorded`).

## Model

| member | source | states |
|---|---|---|
| FinalizerProtocol.ReadyReferrerKeepsReferent | internal/util/k8s.go:58-73 | in every interleaving, an existing object that has ever become Ready still has the very referent it became Ready on, with its finalizer |
| FinalizerProtocol.ReadyChainExists | internal/controller/deployer/deployer_controller.go:254-274 | hence the whole chain down to the Repository exists |
| FinalizerProtocol.ReferentSurvives | internal/controller/repository/repository_controller.go:195-228 | from any reachable state, no continuation removes or replaces the referent while such a referrer exists |
| FinalizerProtocol.ReadyDeployerIsUntrackedFirst | internal/controller/deployer/deployer_controller.go:246-300 | in every interleaving, a Deployer that has ever become Ready and is not being deleted holds its finalizer, and once deleted it stays, with the finalizer, through any run without a completed Untrack |
| FinalizerProtocol.ReadyDeployerHasItsChain | internal/controller/deployer/deployer_controller.go:254-274 | and the Resource, Component and Repository it leads to, by name and namespace, all exist |
| FinalizerProtocol.RunPreserves | internal/controller/component/component_controller.go:166-204 | every interleaving keeps the invariant: relied-on referents exist with finalizer, and an empty referrer list stays valid because the referent is being deleted |
| FinalizerProtocol.StepPreserves | internal/controller/resource/resource_controller.go:174-251 | each single API call keeps the invariant |
| FinalizerProtocol.ListReferrersPreserves | internal/controller/component/component_controller.go:320-343 | listing no referrers while being deleted proves that nobody relies, or can still come to rely, on the object |
| FinalizerProtocol.ReadReferentPreserves | internal/util/k8s.go:58-73 | a referent read as Ready and not being deleted has its finalizer and will keep it |
| FinalizerProtocol.DropFinalizerPreserves | internal/controller/repository/repository_controller.go:220-228 | dropping the finalizer on an earlier empty list, however late, hurts no referrer |
| FinalizerProtocol.ListsEveryReferrer | internal/controller/resource/resource_controller.go:179-186 | the deletion lists return every referrer, and Deployers exactly |
| FinalizerProtocol.ListsAreExactWithinNamespace | internal/controller/component/component_controller.go:49-75 | within one namespace the lists by bare name are exact, too |
| FinalizerProtocol.UserSteps | internal/controller/repository/repository_controller.go:98-128 | what creating, deleting and suspending do to the object, finalizers considered, and that nothing else changes |
| FinalizerProtocol.DeployerIndexAgrees | internal/controller/deployer/deployer_controller.go:254-262 | a Deployer's raw index entry names the Resource it resolves if and only if a namespace is given or the Deployer has none |
| FinalizerProtocol.Cluster.DeleteUnlessReferenced | internal/controller/repository/repository_controller.go:195-228 | the finalizer goes only after an empty list; undisturbed, an unreferenced object is released: gone, or kept by a foreign finalizer alone |
| FinalizerProtocol.Cluster.BecomeReady | internal/controller/component/component_controller.go:184-204 | Ready is marked only on a usable referent under the identity read; undisturbed, exactly then, a Deployer with its finalizer, and no other object changes |
| FinalizerProtocol.Cluster.ReconcileObject | internal/controller/repository/repository_controller.go:94-169 | the order of checks per kind, and what each branch does to the object, its finalizer included, when undisturbed |
| FinalizerProtocol.Cluster.Reconcile | internal/controller/resource/resource_controller.go:160-251 | a reconcile, with arbitrary steps of others between its calls, is a run and leaves a Ready object with its referent in place |
| EffectiveConfig.GetEffectiveConfig | internal/ocm/ocm.go:111-165 | the loops compute the resolution of the references against the statuses, or the same error |
| EffectiveConfig.DirectReference | internal/ocm/ocm.go:119-130 | a Secret or ConfigMap is taken as listed; an explicit namespace and API version are kept, empty ones become those of the referring object and v1 |
| EffectiveConfig.IndirectReference | internal/ocm/ocm.go:131-160 | any other kind is looked up in that namespace, with the error of the first check that fails |
| EffectiveConfig.ResolveInOrder | internal/ocm/ocm.go:118-165 | references are resolved one after the other, and the first error ends it |
| EffectiveConfig.InheritedInOrder | internal/ocm/ocm.go:151-160 | exactly the propagating entries are handed down, in order, under the policy of the reference |
| EffectiveConfig.StepChangesOne | internal/controller/repository/repository_controller.go:189-193 | a reconcile stores at its own object only, and nothing if the resolution fails |
| EffectiveConfig.Converges | internal/ocm/ocm.go:119-165 | for acyclic references, after n rounds in any order every object of depth below n that reaches only objects storing in every round, or skipped ones taken as leaves, has its full recursive meaning over these leaves, and keeps it under further visits, skipped or not |
| EffectiveConfig.ConvergesAboveSkipped | internal/controller/replication/replication_controller.go:141-153 | if some objects are skipped from now on, all others converge to their meaning over what these have stored; if none is, everything converges to its full meaning |
| EffectiveConfig.RoundsSettle | internal/controller/component/component_controller.go:313-313 | each round settles one more level of these objects, whatever else is skipped or stored |
| EffectiveConfig.ReconcileSettles | internal/controller/resource/resource_controller.go:376-380 | one reconcile that stores its configuration settles any object whose referents are settled |
| EffectiveConfig.ResolveGivesMeaning | internal/ocm/ocm.go:119-161 | on settled statuses the one-level resolution is the recursive meaning: order, duplicates, policies and defaults |
| EffectiveConfig.ConvergenceIsUnique | internal/controller/repository/repository_controller.go:189-193 | for these objects two clusters with equal specifications, however started, scheduled and ranked, arrive at equal configurations |
| EffectiveConfig.MeaningIgnoresRank | internal/ocm/ocm.go:119-161 | the recursive meaning depends on the specifications alone |
| EffectiveConfig.NothingElseIsStored | internal/ocm/ocm.go:151-160 | from empty statuses, over any run, every stored configuration is a part of the recursive meaning, in its order |
| EffectiveConfig.SettledIffReferentsWereReady | internal/controller/replication/replication_controller.go:141-153 | over any run from the empty cluster, an object, Replications included, whose referents existed at its last reconcile that was not skipped has its full meaning if and only if each of them then already propagated all that it ever will |
| EffectiveConfig.SkippedReplicationStaysBehind | internal/controller/replication/replication_controller.go:141-146 | a Replication that stores before the object it refers to never gets its configuration as long as it is skipped; in the other order it does |
| EffectiveConfig.UnsettledReferentCanSuffice | internal/ocm/ocm.go:151-160 | referents need not be settled for that, if what they lack is not propagated |
| EffectiveConfig.DoNotPropagateIsRespected | internal/ocm/ocm.go:151-158 | from empty statuses, cyclic references included, a Secret or ConfigMap that nobody propagates appears only where it is listed directly, and not for propagation |
| EffectiveConfig.NotPropagatedStaysConfined | internal/ocm/ocm.go:119-161 | that confinement is an invariant of every run |
| EffectiveConfig.OnlyConfigsStored | internal/controller/repository/repository_controller.go:189-193 | in every run the stored entries are Secrets and ConfigMaps with an API version |
| EffectiveConfig.ResolvedAreConfigs | internal/ocm/ocm.go:125-130 | what resolution returns from such statuses is of that form too |
| ConfigHash.CollectSortedKeys | internal/ocm/hash.go:160-160 | the keys are collected, whatever the iteration order, into the one sorted list |
| ConfigHash.HashMap | internal/ocm/hash.go:158-168 | the hash is taken of the canonical encoding |
| ConfigHash.EncodeTwo | internal/ocm/hash.go:160-165 | spelled out for two keys: the lower key first, NUL after each key and each value |
| Bytes.LexMeans | internal/ocm/hash.go:105-106 | the order of keys and digests: the first byte that differs decides, and a prefix comes first |
| ConfigHash.EncodingRoundTrip | internal/ocm/hash.go:158-165 | a parser inverts the encoding if and only if the data is free of NUL bytes |
| ConfigHash.EncodingInjective | internal/ocm/hash.go:156-165 | on such data, equal encodings mean equal data |
| ConfigHash.NulByteCollision | internal/ocm/hash.go:158-165 | a value with NUL bytes can imitate a further entry, so that two different maps have one encoding |
| ConfigHash.GetConfigMapDataHash | internal/ocm/hash.go:138-154 | binary data overrides data under the same key |
| ConfigHash.GetObjectHash | internal/ocm/hash.go:115-124 | Secrets and ConfigMaps hash to the hash of their data, anything else is an error |
| ConfigHash.ConfigMapsHashAlikeIff | internal/ocm/hash.go:138-154 | for NUL-free data and no collision, two ConfigMaps hash alike if and only if they hold the same bytes under every key, binary data first |
| ConfigHash.KindIsNotHashed | internal/ocm/hash.go:115-154 | a Secret hashes like a ConfigMap that holds the same, as data or as binary data |
| ConfigHash.GetObjectDataHash | internal/ocm/hash.go:94-113 | succeeds exactly for supported objects, with the hash of the sorted digests |
| ConfigHash.HashIgnoresOrder | internal/ocm/hash.go:105-106 | permutations of the objects hash alike |
| ConfigHash.HashIsOfDigestMultiset | internal/ocm/hash.go:105-112 | hashes are equal exactly if the multisets of digests are |
| ConfigHash.HashIsOfContents | internal/ocm/hash.go:89-113 | for NUL-free data, hashes are equal exactly if the multisets of contents are |
| ConfigHash.RepoHashInjective | internal/ocm/context_cache.go:270-276 | equal repository hashes mean byte-identical specifications |
| ConfigHash.RepoHashIsNoHash | internal/ocm/context_cache.go:270-276 | the key begins with the raw specification in hexadecimal digits, and is as long as that and the digest of nothing together |
| Bytes.UnhexInvertsHex | internal/ocm/context_cache.go:275-275 | hexadecimal printing is decodable: two lower-case digits per byte, the higher half first |
| ConfigHash.SessionKeysAgree | internal/ocm/context_cache.go:141-167 | session keys are equal exactly if specification and configuration contents are |
| Lru.Cache.Add | internal/ocm/context_cache.go:71-87 | the newest entry is never evicted, overwriting evicts nothing, all other entries stay |
| Lru.Cache.Get | internal/ocm/context_cache.go:202-207 | a lookup changes recency only |
| Lru.Cache.Clear | internal/ocm/context_cache.go:278-281 | every entry is handed to the eviction callback |
| Lru.RecentlyUsedStays | internal/ocm/context_cache.go:202-207 | an entry that was got or added is still there after any uses of fewer other keys than the capacity: the table is not first-in-first-out |
| ContextCache.RunPreserves | internal/ocm/context_cache.go:134-169 | calls of GetSession, failing ones too, closing of sessions and both halves of Clear, in any order, keep the invariant over both tables |
| ContextCache.CachedSessionsOwned | internal/ocm/context_cache.go:201-224 | every open cached session is owned by the context now cached under its configuration hash |
| ContextCache.GetSessionReturnsOwned | internal/ocm/context_cache.go:134-169 | a successful call returns an open session of the context it returns, and both are the cached ones |
| ContextCache.NothingLeaks | internal/ocm/context_cache.go:71-87 | every open session is in the table under its own key, so there are at most as many as its capacity; every context that left its table has been finalized |
| ContextCache.ClearClosesAll | internal/ocm/context_cache.go:278-281 | after clearing either table no session is open |
| ContextCache.GetSessionIsStable | internal/ocm/context_cache.go:134-169 | after any other operations, a call with the same key returns the same context and session if and only if that session is still open |
| ContextCache.OrderDoesNotMatter | internal/ocm/context_cache.go:141-167 | permuted configurations make the same call |
| ContextCache.SameSessionSameKey | internal/ocm/context_cache.go:243-268 | over any run, calls that get one session have one key |
| ContextCache.SessionsAreNotShared | internal/ocm/context_cache.go:158-166 | hence, for NUL-free data and no collision, if two calls get one session then their repository specifications are identical, and so are, as multisets, the data of the Secrets and ConfigMaps that the cluster held at each call |
| ContextCache.DifferentObjectsDifferentSessions | internal/ocm/context_cache.go:141-166 | in particular, calls that refer to one Secret each, or one ConfigMap each, with different contents never get one session |
| ContextCache.GetSessionSucceedsIff | internal/ocm/context_cache.go:134-169 | a call succeeds if and only if all objects exist, the verification keys can be read, and the context is cached or accepts every object; a failing one leaves the sessions, and a context that could not be configured is not cached |
| ContextCache.FetchMeans | internal/ocm/context_cache.go:179-196 | a reference is fetched if and only if the object of its kind, namespace and name exists, and yields its data |
| UnlockedClear.HalvesMakeACall | internal/ocm/context_cache.go:145-168 | undisturbed, the two halves are one call as in `ContextCache.dfy` |
| UnlockedClear.RunKeeps | internal/ocm/context_cache.go:145-167 | wherever Clear comes, between the halves of a call too: tables, finalization and the absence of leaks are kept, and open sessions are owned by a context made for their configuration |
| UnlockedClear.OwnedIff | internal/ocm/context_cache.go:201-268 | ownership by the context now cached holds exactly if no open session's context has been finalized |
| UnlockedClear.OwnedUnlessInBetween | internal/ocm/context_cache.go:278-281 | and is kept unless the contexts are cleared in the middle of a call |
| UnlockedClear.ClearInBetweenBreaks | internal/ocm/context_cache.go:278-281 | if they are, the call returns an open session of a finalized context, and the next call for the same key returns it with another context |
| ContextCache.ContextStepPreserves | internal/ocm/context_cache.go:201-224 | getting or making a context, and finalizing the evicted one, keeps the invariant |
| ContextCache.SessionStepPreserves | internal/ocm/context_cache.go:243-268 | reusing, replacing or making a session keeps it, and yields an open session of that context |
| ContextCache.ContextCache.GetConfigObjects | internal/ocm/context_cache.go:179-199 | succeeds exactly if all objects exist, and yields for each reference the data of the Secret, or the data and binary data of the ConfigMap, of its namespace and name; for resolved configurations the unsupported-kind branch is not reached |
| ContextCache.ContextCache.GetOrCreateContext | internal/ocm/context_cache.go:201-224 | computes the specified change of both tables |
| ContextCache.ContextCache.GetOrCreateSession | internal/ocm/context_cache.go:243-268 | computes the specified change of the session table |
| ContextCache.ContextCache.GetSession | internal/ocm/context_cache.go:134-169 | the whole call is one step of the state machine |
| ContextCache.ContextCache.Clear | internal/ocm/context_cache.go:278-281 | closes all sessions and finalizes all contexts |
| SemVer.Mirror | internal/controller/component/component_controller.go:406-406 | precedence is antisymmetric up to build metadata |
| SemVer.Transitive | internal/controller/component/component_controller.go:406-406 | precedence is transitive |
| SemVer.CoreDecides | internal/controller/component/component_controller.go:405-405 | the first difference among major, minor and patch decides, whatever follows (section 11.2) |
| SemVer.ReleaseIsHighest | internal/controller/component/component_controller.go:405-405 | a release is higher than each of its pre-releases, and build metadata is ignored (sections 11.3 and 10) |
| SemVer.FirstFieldDecides | internal/controller/component/component_controller.go:405-405 | among pre-releases of one version the first field that differs decides (section 11.4) |
| SemVer.IdentifierOrder | internal/controller/component/component_controller.go:405-405 | numeric fields go by value and below all others, which go letter by letter in ASCII order (sections 11.4.1 to 11.4.3) |
| SemVer.LongerIsHigher | internal/controller/component/component_controller.go:405-405 | a pre-release that continues all fields of another is higher (section 11.4.4) |
| VersionSelection.MatchVersionStrings | internal/ocm/ocm.go:199-202 | exactly the versions that satisfy the constraint, in ascending order |
| VersionSelection.GetLatestValidVersion | internal/ocm/ocm.go:183-209 | the result is a maximum of the list with the matching versions appended, which is a maximum of all listed versions that satisfy the constraint, and exists exactly if there is one |
| VersionSelection.FilterDoesNotNarrow | internal/ocm/ocm.go:189-198 | of a candidate that the filter accepts and a higher one that it rejects, the rejected one is selected |
| VersionSelection.FilterIsRespectedIff | internal/ocm/ocm.go:189-208 | with candidates of distinct precedence, the result matches the filter if and only if some accepted candidate is higher than every rejected one |
| VersionSelection.FilterIsSurelyRespectedIff | internal/ocm/ocm.go:189-208 | with ties, every possible result matches exactly under that same condition |
| VersionSelection.FilterMayBeRespectedIff | internal/ocm/ocm.go:189-208 | and some possible result matches exactly if some accepted candidate is at least as high as every rejected one |
| VersionSelection.IsDowngradable | internal/ocm/ocm.go:227-250 | true exactly if the label's constraint admits the version; an unusable label is an error |
| VersionSelection.DetermineEffectiveVersion | internal/controller/component/component_controller.go:369-444 | returns the version selected under the filter exactly if the policy lets it replace the current one, and otherwise fails |
| VersionSelection.Judge | internal/controller/component/component_controller.go:396-443 | the policy's verdict, with its error cases |
| VersionSelection.PolicyDecides | internal/controller/component/component_controller.go:405-443 | an upgrade is let through under every policy; a downgrade under Enforce, under Allow if the label of the version it replaces admits it, and under no other |
| VersionSelection.FilterMeans | internal/ocm/ocm.go:167-180 | the empty filter accepts everything, any other what its expression matches |
| ComponentController.Reconciler.Reconcile | internal/controller/component/component_controller.go:152-318 | the chosen version and the resulting status, session and outcome in each branch |
| ComponentController.StoredDigestWasCommon | internal/controller/component/component_controller.go:266-311 | over any run, the version and digest in a status are those of one of its reconciles, in which cached and live descriptor both had that hash |
| ComponentController.ReadyIff | internal/controller/component/component_controller.go:266-318 | after a reconcile the Component is Ready if and only if it went through, with the stored version and digest compared and verified, or it was Ready and the session was found stale |
| ComponentController.ReadyRestsOnVerification | internal/controller/component/component_controller.go:266-318 | over any run, a Ready status is that of an earlier reconcile that compared and verified what it says, with only stale sessions since |
| ComponentController.StaleSessionsHeal | internal/controller/component/component_controller.go:256-281 | once the repository stops changing, at most one reconcile fails because of a stale session |
| ComponentController.FreshNeverStale | internal/ocm/context_cache.go:251-258 | none does once the session is fresh |
| ComponentController.ClosedIffStale | internal/controller/component/component_controller.go:264-291 | a reconcile closes its session exactly if it finds it stale |
| ComponentController.StaleIff | internal/controller/component/component_controller.go:262-291 | when the calls work, it does so exactly if the cached answer lacks the version or has another hash than the live one |
| ComponentController.AnswersAreFrozen | internal/controller/component/component_controller.go:262-262 | an open session keeps its first answers; what it has not been asked it asks the repository |
| ComponentController.ReconcileContinuesHistory | internal/controller/component/component_controller.go:152-318 | each reconcile extends the history of statuses by an allowed step |
| ComponentController.NeverDowngradedUnderDeny | internal/controller/component/component_controller.go:410-413 | while the policy is Deny, the version never decreases in precedence, over changing specifications and repositories |
| ComponentController.DowngradesArePermitted | internal/controller/component/component_controller.go:414-440 | if a version is not at least as high as an earlier one, some reconcile in between lowered it to the latest valid one listed, under Enforce, or under Allow with the label of the version it replaced |
| InformerManager.AccountsBalance | internal/controller/deployer/dynamic/informer_manager.go:298-379 | over any operations, failing ones too, the gauge equals the number of watches and every handler belongs to one |
| InformerManager.HandlerAttachedIff | internal/controller/deployer/dynamic/informer_manager.go:347-473 | over any operations from the empty manager, a watch in the table has its event handler attached, under its own key, if and only if no unregistration of it, since it was registered, failed after removing the handler |
| InformerManager.FailedAddLeavesInformer | internal/controller/deployer/dynamic/informer_manager.go:308-350 | a registration whose handler cannot be attached leaves the informer of its kind behind, and no watch |
| InformerManager.UnregisterStopsKind | internal/controller/deployer/dynamic/informer_manager.go:440-473 | removes the one watch and stops its whole kind; fewer are active exactly if one of the kind was |
| InformerManager.StoppedWatchIsNotRenewed | internal/controller/deployer/dynamic/informer_manager.go:301-306 | a watch stopped through another namespace stays, and registering it again does nothing |
| InformerManager.RegisterActivatesIff | internal/controller/deployer/dynamic/informer_manager.go:301-364 | after a registration the watch is active if and only if it was, or it was not in the table and no call failed |
| InformerManager.SharedWatchesAreNeverReleased | internal/controller/deployer/dynamic/informer_manager.go:443-455 | if all watches of a kind are shared, no unregistrations remove or stop any of them |
| InformerManager.RemovableIff | internal/controller/deployer/dynamic/informer_manager.go:443-470 | some sequence of unregistrations removes a watch if and only if no other parent kind shares it |
| InformerManager.StoppableIff | internal/controller/deployer/dynamic/informer_manager.go:440-473 | some sequence of unregistrations stops it if and only if some watch of its kind, in any namespace, is not shared |
| InformerManager.InformerManager.Register | internal/controller/deployer/dynamic/informer_manager.go:298-364 | one registration, failures included, is one step; without failures, the watch is then in the table with its handler attached |
| InformerManager.InformerManager.Unregister | internal/controller/deployer/dynamic/informer_manager.go:366-379 | one unregistration is one step, and fails exactly if a call of an unshared stop fails |
| InformerManager.InformerManager.StopTask | internal/controller/deployer/dynamic/informer_manager.go:440-473 | what is done, and what is left after a failure half-way |
| InformerManager.InformerManager.IsLastWatch | internal/controller/deployer/dynamic/informer_manager.go:443-451 | the scan finds another parent exactly if there is one |
| InformerManager.InformerManager.ActiveForParent | internal/controller/deployer/dynamic/informer_manager.go:281-296 | all watches of the parent kind, stopped ones included, without duplicates |
| InformerManager.InformerManager.GracefulShutdown | internal/controller/deployer/dynamic/informer_manager.go:417-438 | leaves exactly the watches that are shared or whose stop failed, in whatever order, and reports a failure exactly if there was one |
| InformerManager.InformerManager.SetQueue | internal/controller/deployer/dynamic/informer_manager.go:268-279 | a queue is bound only if none is |
| Untrack.FinalizerOutlivesWatches | internal/controller/deployer/deployer_controller.go:202-226 | under any interleaving with unregistrations and registrations, once the finalizer is gone the active watches of the parent kind are exactly those registered since the last listing whose kind was not stopped since |
| Untrack.SafeWithoutRegistrations | internal/controller/deployer/deployer_controller.go:202-226 | without registrations of the parent kind, the finalizer is gone only if no watch of that kind is active |
| Untrack.RegistrationDefeatsUntrack | internal/controller/deployer/dynamic/informer_manager.go:242-248 | a registration processed between the listing and the end of an Untrack leaves the finalizer gone and a watch active |
| Untrack.UntrackCovers | internal/controller/deployer/deployer_controller.go:205-218 | a complete Untrack leaves a request for every watch still active, despite workers in between |
| Untrack.RequestsStopEverything | internal/controller/deployer/dynamic/informer_manager.go:249-255 | once that many requests are processed, all watches are stopped, whatever else is queued, duplicates included |
| Untrack.UntrackSucceeds | internal/controller/deployer/deployer_controller.go:219-225 | from then on Untrack asks again at most once per watch left, plus once if one is under way |
| Untrack.CompletionDecides | internal/controller/deployer/deployer_controller.go:219-225 | an Untrack that completes without asking again drops the finalizer for good |
| Untrack.DeletionProgresses | internal/controller/deployer/deployer_controller.go:246-252 | the deletion from start to end: once more Untracks have completed than watches are left in the table, plus one that may be under way, the finalizer is gone |
| Untrack.GoneWatchCostsARetry | internal/controller/deployer/dynamic/informer_manager.go:222-226 | a watch that goes between the listing and the look at it makes Untrack ask once more, although none is active |
| Untrack.UntrackCanComplete | internal/controller/deployer/deployer_controller.go:205-218 | a running Untrack can always complete, however full the channel is, if workers go on, even when their stops fail |
| Untrack.QueueStaysBounded | internal/controller/deployer/deployer_controller.go:211-217 | the channel never holds more requests than its capacity |
| Untrack.CancelKeepsFinalizer | internal/controller/deployer/deployer_controller.go:215-217 | a cancelled Untrack keeps the finalizer and the requests it has sent |
| Untrack.Deployer.Untrack | internal/controller/deployer/deployer_controller.go:202-226 | one request per watch that is not stopped; the finalizer goes exactly if there is none |
| Replication.LatestIsRecorded | api/v1alpha1/replication_types.go:147-177 | every run added is told of by the last record, and all other records stay but for the oldest and one that is updated |
| Replication.FoldsIff | api/v1alpha1/replication_types.go:160-176 | below the capacity, a run updates the last record instead of adding one if and only if both failed alike for the same component, version and target |
| Replication.LengthStaysBounded | api/v1alpha1/replication_types.go:147-177 | within the capacity, the history stays within it |
| Replication.FitsAgainIff | api/v1alpha1/replication_types.go:156-176 | above the capacity, the history loses one record per repetition of a failure, so it fits again if and only if as many were repeated as it has records too many |
| Replication.ShrinkingDoesNotFit | api/v1alpha1/replication_types.go:156-158 | in particular it keeps its length while transfers succeed |
| Replication.SuccessIsKept | api/v1alpha1/replication_types.go:147-177 | a success stays, unchanged, while fewer than capacity records follow |
| Replication.CapacitySuccessesReplaceAll | api/v1alpha1/replication_types.go:156-176 | and no longer: capacity successes replace everything |
| Replication.RepeatedFailuresEvictAtMostTwo | api/v1alpha1/replication_types.go:160-174 | any number of equal failures makes one record with the last times, and pushes out exactly so many older ones, at most two |
| Replication.ReadyMeansReplicated | internal/controller/replication/replication_controller.go:141-171 | a reconcile reports success only if this or an earlier transfer succeeded for the same component, version and target, and skips only if an earlier one is still recorded |
| Replication.ReadyStatusRestsOnTransfer | internal/controller/replication/replication_controller.go:141-171 | over any run, whenever the stored status is Ready some earlier transfer has succeeded |
| Replication.ReadyAfter | internal/controller/replication/replication_controller.go:69-171 | what is stored after each branch: Ready after a skip and after a successful transfer, not Ready after a failed one or a failed preparation, unchanged when deleted or suspended; and exactly when it panics |
| Replication.TransferIsRecorded | internal/controller/replication/replication_controller.go:153-192 | a transfer that is stored is told of by the last record: component, version, target, times, and success or the error |
| Replication.LostPatchChangesNothing | internal/controller/replication/replication_controller.go:69-93 | a status that cannot be stored is lost, whatever the transfer did |
| Replication.HistoryIsTrue | internal/controller/replication/replication_controller.go:174-253 | over any run, a recorded success did happen |
| Replication.SuccessIsReused | internal/controller/replication/replication_controller.go:141-146 | while fewer than capacity transfers followed a stored success, a reconcile for the same goal is skipped exactly if the object is Ready |
| Replication.ZeroCapacityNeverSkips | api/v1alpha1/replication_types.go:148-150 | with capacity 0 every prepared reconcile transfers |
| Replication.Replication.AddHistoryRecord | api/v1alpha1/replication_types.go:147-177 | the in-place update computes the specified history, and panics exactly for a negative capacity on an empty one |
| Replication.Replication.IsInHistory | api/v1alpha1/replication_types.go:179-191 | true exactly if a success with this goal is recorded |
| Replication.Replication.Reconcile | internal/controller/replication/replication_controller.go:69-171 | the stored status and the outcome in each branch; without a successful patch the status stays |
| Replication.Replication.ReconcileObject | internal/controller/replication/replication_controller.go:69-171 | the object before it is stored |
| DigestCache.MissesAreAccountedFor | internal/controller/deployer/cache/digest_object_cache.go:75-98 | under any interleaving of loads, misses = entries + failed + running fallbacks + evictions + overwritten results |
| DigestCache.LoadsAreCounted | internal/controller/deployer/cache/digest_object_cache.go:80-87 | and hits and misses together are the loads started |
| DigestCache.ConcurrentLoadsOverwrite | internal/controller/deployer/cache/digest_object_cache.go:80-93 | concurrent loads of one key do overwrite |
| DigestCache.LoadKeepsCount | internal/controller/deployer/cache/digest_object_cache.go:75-98 | sequential loads never do, so there misses less failures less evictions is the length |
| DigestCache.OnlyResultsAreStored | internal/controller/deployer/cache/digest_object_cache.go:87-93 | failures are never cached, and no value moves to another key |
| DigestCache.CachedWasReturned | internal/controller/deployer/cache/digest_object_cache.go:75-98 | over any interleaving a cached value was returned by a successful fallback for its key |
| DigestCache.DigestObjectCache.Get | internal/controller/deployer/cache/digest_object_cache.go:80-86 | a hit counts and leaves the contents |
| DigestCache.DigestObjectCache.Complete | internal/controller/deployer/cache/digest_object_cache.go:87-98 | a miss stores a successful result, with counters and gauge kept true |
| DeployerController.CachedListsMatchTheirDigest | internal/controller/deployer/deployer_controller.go:385-397 | under any interleaving of reconciles a cached list is the decoding of a manifest with the digest it is cached under |
| DeployerController.DecodeMeans | internal/controller/deployer/deployer_controller.go:400-421 | a manifest decodes exactly if it has documents and all of them do, into these in their order |
| DeployerController.AppliedIsMadeOfDocuments | internal/controller/deployer/deployer_controller.go:499-544 | each document that is not controlled by another and whose patch is accepted is applied, in order: its kind, name, namespace and body, with the Deployer as its controller and the labels and annotations set |
| DeployerController.AllAreApplied | internal/controller/deployer/deployer_controller.go:514-523 | all are, if nothing stands in the way |
| DeployerController.ReferencesNameDocuments | internal/controller/deployer/deployer_controller.go:588-596 | a reference names the object as in its document, with the UID found there |
| DeployerController.Reconciler.Reconcile | internal/controller/deployer/deployer_controller.go:276-300 | what reaches the cluster is the stamped decoding of one manifest with the Resource's digest, failing objects left out; what is recorded are the references as in the manifest, and only if all were applied and tracked |
| DeployerController.Reconciler.Load | internal/controller/deployer/deployer_controller.go:276-284 | yields cached or downloaded objects of a manifest with that digest; fails exactly on a miss with a failing download |
| DeployerController.Reconciler.DecodeObjects | internal/controller/deployer/deployer_controller.go:400-421 | decodes all documents or fails, also if there are none |
| DeployerController.Reconciler.ApplyAll | internal/controller/deployer/deployer_controller.go:499-523 | applies copies; the cached objects are not modified |
| DeployerController.Reconciler.Apply | internal/controller/deployer/deployer_controller.go:528-544 | stamps and sends the object, unless another controller owns it or the patch is refused |
| DeployerController.Reconciler.UpdateDeployed | internal/controller/deployer/deployer_controller.go:587-609 | the loop computes the upsert of all references |
| DeployedStatus.LastPerUidIsKept | internal/controller/deployer/deployer_controller.go:587-609 | per UID the last new reference is recorded, or the old one if there is none, and UIDs stay distinct |
| DeployedStatus.RecordedIfLastOfItsUid | internal/controller/deployer/deployer_controller.go:597-607 | an object is recorded exactly if the last object with its UID has the same reference |
| DeployedStatus.AllRecordedIff | internal/controller/deployer/deployer_controller.go:597-607 | all objects are recorded exactly if those that share a UID have the same reference |
| DeployedStatus.WithoutUidsOnlyTheLastIsRecorded | internal/controller/deployer/deployer_controller.go:587-609 | without UIDs only the last object is recorded |
| DigestSpec.ParseInvertsPrint | internal/controller/deployer/deployer_controller.go:472-494 | parsing and printing undo each other, for every string and every digest |
| DigestSpec.FieldMeans | internal/controller/deployer/deployer_controller.go:472-472 | a field ends at its delimiter and nowhere else |
| DigestSpec.Classes | internal/controller/deployer/deployer_controller.go:472-472 | the three character classes, spelled out |
| DigestSpec.AnnotationsTellDigestsApart | internal/controller/deployer/annotations.go:39-47 | on an object without digest annotations, different digests, well-formed or not, leave different annotations |
| DigestSpec.PartsByName | internal/controller/deployer/annotations.go:39-43 | a digest that can be parsed leaves its three parts under their names |
| DigestSpec.RawByName | internal/controller/deployer/annotations.go:44-46 | any other but the empty one leaves its raw text |

## Left out

- FinalizerProtocol.Cluster.ReconcileObject: what a reconcile does with registries is one flag (`succeeds`), and stopping a
  Deployer's watches is another (`untracked`); `Untrack.dfy` models the latter in detail. A Deployer's status and finalizer
  patches are one step.
- FinalizerProtocol.ListsEveryReferrer: Replications are referrers too, but no controller lists them before deletion, so
  they are not protected and not part of the protocol.
- EffectiveConfig.Converges: specifications are fixed during the run. When a reconcile is skipped is left open here, and
  decided in `Replication.dfy` for Replications. A Deployer resolves its configuration but does not store it, so it is no
  source for others.
- ContextCache.NothingLeaks: the Prometheus gauges, which use one label for contexts and sessions on eviction, are not
  modelled, nor are registered verification keys beyond the success of reading them.
- ConfigHash.HashIsOfContents: relies on SHA-256 having no collision among the inputs concerned.
- ComponentController.Reconciler.Reconcile: the signature verification and access to the repository are inputs.
- ComponentController.NeverDowngradedUnderDeny: assumes that the library does not parse the empty string as a version.
- InformerManager.AccountsBalance: with several workers, Register's check and its storing can interleave; that is not
  covered. What event handlers do with an event and the synchronization of informers are left out.
- Untrack.DeletionProgresses: progress is for a single parent kind, without stop failures and without registrations from
  then on, which the source does not rule out.
- DeployerController.Reconciler.ApplyAll: objects are applied one after the other; the source starts a goroutine per
  object, and a cancellation after the first failure shows up as refused patches.
- DeployerController.Reconciler.DecodeObjects: the digest is taken to be that of the very manifest that is decoded, though
  the source reads the content twice.
- DeployerController.Reconciler.Reconcile: whether all objects are tracked is an input.
- DigestCache.DigestObjectCache.Complete: counts the miss after the fallback, which a single caller cannot tell apart; the
  default cache without an eviction callback is not modelled.
- Replication.Replication.Reconcile: transfers succeed or fail as a whole; what a panic does beyond the status is left out.
- The resource controller's access, digest and status fields, additional-status expressions, and OCI conversion: library
  calls and copying.
- Events, log lines, condition messages, timestamps other than those of the history, and manager setup.
