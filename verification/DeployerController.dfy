/** The Deployer reconciler: it loads the objects of a manifest through the digest-keyed cache, applies copies of
    them, and records references to them. The cached objects live on the heap and are shared by all reconciles. */
module DeployerController {
  import opened Results
  import opened Lru
  import opened DigestCache
  import opened DeployedStatus

  datatype Content = Content(apiVersion: string, kind: string, namespace: string, name: string, uid: string,
                             controller: Option<string>, labels: map<string, string>,
                             annotations: map<string, string>, body: string)

  /** The documents of a manifest; None is one that does not unmarshal. */
  type Manifest = seq<Option<Content>>

  /** What a Deployer writes into the objects that it applies. */
  datatype Ownership = Ownership(deployer: string, labels: map<string, string>, annotations: map<string, string>)

  /** What becomes of a patch: it is refused, or accepted with an answer that is read back into the object. */
  datatype Fate = Rejected | Accepted(answer: Content)

  class KubeObject {
    var content: Content

    constructor (content: Content)
      ensures this.content == content
    {
      this.content := content;
    }
  }

  // ---------------------------------------------------------------------------------------------------
  // Specification
  // ---------------------------------------------------------------------------------------------------

  function Decode(m: Manifest): Option<seq<Content>> {
    if m != [] && forall i :: 0 <= i < |m| ==> m[i].Some?
    then Some(seq(|m|, i requires 0 <= i < |m| && m[i].Some? => m[i].value))
    else None
  }

  /** The download: the manifest has to be at hand, to have the expected digest, and to decode. */
  function Download(digestOf: Manifest -> string, digest: string, access: Option<Manifest>): Option<seq<Content>> {
    if access.None? || digestOf(access.value) != digest then None else Decode(access.value)
  }

  /** An object with another controller is not taken over. */
  predicate MayOwn(c: Content, o: Ownership) { c.controller.None? || c.controller == Some(o.deployer) }

  function Stamp(c: Content, o: Ownership): Content {
    c.(labels := c.labels + o.labels, annotations := c.annotations + o.annotations, controller := Some(o.deployer))
  }

  predicate Applies(c: Content, o: Ownership, fate: Fate) { MayOwn(c, o) && fate.Accepted? }

  /** What reaches the cluster: every object that may be owned and is accepted, failures of others notwithstanding. */
  function Applied(cs: seq<Content>, o: Ownership, fates: nat -> Fate): seq<Content> {
    if cs == [] then [] else
      var n := |cs| - 1;
      Applied(cs[..n], o, fates) + (if Applies(cs[n], o, fates(n)) then [Stamp(cs[n], o)] else [])
  }

  function ReferenceTo(c: Content): Reference { Reference(c.apiVersion, c.kind, c.name, c.namespace, c.uid) }

  function References(cs: seq<Content>): seq<Reference> {
    seq(|cs|, i requires 0 <= i < |cs| => ReferenceTo(cs[i]))
  }

  /** A manifest decodes exactly if it has documents and all of them do, into these in their order. */
  lemma DecodeMeans(m: Manifest, cs: seq<Content>)
    ensures Decode(m) == Some(cs) <==> cs != [] && |m| == |cs| && forall i :: 0 <= i < |m| ==> m[i] == Some(cs[i])
  {
    if Decode(m).Some? {
      var ds := Decode(m).value;
      assert |ds| == |m| && forall i :: 0 <= i < |m| ==> m[i] == Some(ds[i]);
      if cs != [] && |m| == |cs| && forall i :: 0 <= i < |m| ==> m[i] == Some(cs[i]) {
        forall i | 0 <= i < |m| ensures cs[i] == ds[i] { assert Some(cs[i]) == Some(ds[i]); }
        assert cs == ds;
      }
    }
  }

  /** The object that was made out of one document for a Deployer: its labels and annotations are added, overriding
      those of the document, and it is the controller; everything else is as in the document. */
  ghost predicate MadeOf(sent: Content, document: Content, o: Ownership) {
    && sent.controller == Some(o.deployer)
    && (forall l :: l in o.labels ==> l in sent.labels && sent.labels[l] == o.labels[l])
    && (forall l :: l in document.labels && l !in o.labels ==> l in sent.labels && sent.labels[l] == document.labels[l])
    && (forall a :: a in o.annotations ==> a in sent.annotations && sent.annotations[a] == o.annotations[a])
    && (forall a :: a in document.annotations && a !in o.annotations ==>
          a in sent.annotations && sent.annotations[a] == document.annotations[a])
    && sent.apiVersion == document.apiVersion && sent.kind == document.kind && sent.namespace == document.namespace
    && sent.name == document.name && sent.uid == document.uid && sent.body == document.body
  }

  /** What reaches the cluster, document by document and in their order: one object made of each document that no other
      Deployer controls and whose patch is accepted, and nothing for the others. */
  lemma {:induction false} AppliedIsMadeOfDocuments(cs: seq<Content>, c: Content, o: Ownership, fates: nat -> Fate)
    ensures Applied([], o, fates) == []
    ensures var before, all := Applied(cs, o, fates), Applied(cs + [c], o, fates);
      if (c.controller.None? || c.controller.value == o.deployer) && fates(|cs|).Accepted?
      then |all| == |before| + 1 && all[..|before|] == before && MadeOf(all[|before|], c, o)
      else all == before
  {
    assert (cs + [c])[..|cs|] == cs;
  }

  /** If nothing stands in the way, every document is applied. */
  lemma {:induction false} AllAreApplied(cs: seq<Content>, o: Ownership, fates: nat -> Fate)
    requires forall i: nat :: i < |cs| ==> fates(i).Accepted? && cs[i].controller.None?
    ensures |Applied(cs, o, fates)| == |cs| && forall i :: 0 <= i < |cs| ==> MadeOf(Applied(cs, o, fates)[i], cs[i], o)
    decreases |cs|
  {
    if cs != [] {
      var n := |cs| - 1;
      assert cs == cs[..n] + [cs[n]];
      AllAreApplied(cs[..n], o, fates);
      AppliedIsMadeOfDocuments(cs[..n], cs[n], o, fates);
      var before, all := Applied(cs[..n], o, fates), Applied(cs, o, fates);
      forall i | 0 <= i < n ensures MadeOf(all[i], cs[i], o) {
        assert all[i] == before[i] && cs[..n][i] == cs[i];
      }
    }
  }

  /** A reference names the object in its document, with the document's UID. */
  lemma ReferencesNameDocuments(cs: seq<Content>, i: nat)
    requires i < |cs|
    ensures |References(cs)| == |cs|
    ensures var r := References(cs)[i];
      && r.apiVersion == cs[i].apiVersion && r.kind == cs[i].kind && r.name == cs[i].name
      && r.namespace == cs[i].namespace && r.uid == cs[i].uid
  {}

  ghost predicate Holds(objs: seq<KubeObject>, cs: seq<Content>)
    reads objs
  {
    |objs| == |cs| && forall i :: 0 <= i < |objs| ==> objs[i].content == cs[i]
  }

  /** Over any interleaving of loads by concurrent reconciles, whatever their downloads meet: a cached list is the
      decoding of a manifest that has the digest it is cached under. */
  lemma {:induction false} CachedListsMatchTheirDigest(digestOf: Manifest -> string, capacity: nat,
      steps: seq<Step<seq<Content>>>, k: string)
    requires forall i :: 0 <= i < |steps| && steps[i].Ended? ==>
      exists access :: steps[i].result == Download(digestOf, steps[i].key, access)
    ensures var now := Lookup(Run(Empty(), capacity, steps).entries, k);
      now.Some? ==> exists m :: digestOf(m) == k && Decode(m) == now
  {
    var now := Lookup(Run(Empty(), capacity, steps).entries, k);
    CachedWasReturned(Empty(), capacity, steps, k);
    if now.Some? {
      var i :| 0 <= i < |steps| && steps[i] == Ended(k, now);
      var access :| steps[i].result == Download(digestOf, steps[i].key, access);
      assert digestOf(access.value) == k && Decode(access.value) == now;
    }
  }

  // ---------------------------------------------------------------------------------------------------
  // The reconciler
  // ---------------------------------------------------------------------------------------------------

  class Reconciler {
    const downloads: DigestObjectCache<seq<KubeObject>>
    const digestOf: Manifest -> string
    var cluster: seq<Content>            // the objects sent, in order
    var deployed: seq<Reference>
    ghost var objects: set<KubeObject>   // all objects that have ever been cached
    ghost var origin: map<string, Manifest>

    /** Every cached list is the decoding of a manifest whose digest is the key it is cached under. */
    ghost predicate Valid()
      reads this`objects, this`origin, downloads, downloads.cache, objects
    {
      && downloads.Valid()
      && forall k :: Lookup(downloads.cache.entries, k).Some? ==> Genuine(k, Lookup(downloads.cache.entries, k).value)
    }

    ghost predicate Genuine(k: string, objs: seq<KubeObject>)
      reads this`objects, this`origin, objects
    {
      && (forall i :: 0 <= i < |objs| ==> objs[i] in objects)
      && k in origin && digestOf(origin[k]) == k
      && Decode(origin[k]).Some? && Holds(objs, Decode(origin[k]).value)
    }

    constructor (capacity: nat, digestOf: Manifest -> string)
      ensures Valid() && fresh(downloads) && fresh(downloads.cache) && this.digestOf == digestOf
      ensures cluster == [] && deployed == [] && objects == {}
    {
      downloads := new DigestObjectCache<seq<KubeObject>>(capacity);
      this.digestOf, cluster, deployed, objects, origin := digestOf, [], [], {}, map[];
    }

    /** Decode document by document, giving up at the first that fails. */
    method DecodeObjects(m: Manifest) returns (objs: Option<seq<KubeObject>>)
      ensures objs.Some? <==> Decode(m).Some?
      ensures objs.Some? ==> fresh(set o | o in objs.value) && Holds(objs.value, Decode(m).value)
    {
      var made: seq<KubeObject> := [];
      for i := 0 to |m|
        invariant |made| == i && fresh(set o | o in made)
        invariant forall j :: 0 <= j < i ==> m[j].Some? && made[j].content == m[j].value
      {
        if m[i].None? { return None; }
        var obj := new KubeObject(m[i].value);
        made := made + [obj];
      }
      objs := if |made| == 0 then None else Some(made);
    }

    /** The objects for a digest. Only a miss looks at `access`, and only then the download can fail. */
    method Load(digest: string, access: Option<Manifest>) returns (r: Option<seq<KubeObject>>)
      requires Valid()
      modifies this`objects, this`origin, downloads, downloads.cache
      ensures Valid() && old(objects) <= objects && fresh(objects - old(objects))
      ensures r.Some? ==> Genuine(digest, r.value)
      ensures r.None? <==>
        old(Lookup(downloads.cache.entries, digest)).None? && Download(digestOf, digest, access).None?
      ensures old(Lookup(downloads.cache.entries, digest)).Some? ==> origin == old(origin)
      ensures downloads.State() == LoadSpec(old(downloads.State()), downloads.cache.capacity, digest, r)
    {
      LoadStoresItsResult(downloads.State(), downloads.cache.capacity, digest, None);
      r := downloads.Get(digest);
      if r.None? { r := Fill(digest, access); }
    }

    /** The fallback of a load, and what the cache does with its result. */
    method Fill(digest: string, access: Option<Manifest>) returns (r: Option<seq<KubeObject>>)
      requires Valid() && Lookup(downloads.cache.entries, digest).None?
      modifies this`objects, this`origin, downloads, downloads.cache
      ensures Valid() && old(objects) <= objects && fresh(objects - old(objects))
      ensures r.Some? ==> Genuine(digest, r.value)
      ensures r.None? <==> Download(digestOf, digest, access).None?
      ensures downloads.State() == LoadSpec(old(downloads.State()), downloads.cache.capacity, digest, r)
    {
      r := None;
      if access.Some? && digestOf(access.value) == digest {
        r := DecodeObjects(access.value);
        if r.Some? { Remember(digest, access.value, r.value); }
      }
      Store(digest, r);
    }

    method Store(digest: string, result: Option<seq<KubeObject>>)
      requires Valid() && Lookup(downloads.cache.entries, digest).None?
      requires result.Some? ==> Genuine(digest, result.value)
      modifies downloads, downloads.cache
      ensures Valid()
      ensures downloads.State() == LoadSpec(old(downloads.State()), downloads.cache.capacity, digest, result)
    {
      LoadStoresItsResult(downloads.State(), downloads.cache.capacity, digest, result);
      downloads.Complete(digest, result);
    }

    ghost method Remember(digest: string, m: Manifest, objs: seq<KubeObject>)
      requires Valid() && Lookup(downloads.cache.entries, digest).None?
      requires digestOf(m) == digest && Decode(m).Some? && Holds(objs, Decode(m).value)
      modifies this`objects, this`origin
      ensures Valid() && Genuine(digest, objs)
      ensures objects == old(objects) + set o | o in objs
    {
      objects := objects + set o | o in objs;
      origin := origin[digest := m];
    }

    /** Stamp the object, patch it, and read the answer back into it. */
    method Apply(obj: KubeObject, o: Ownership, fate: Fate) returns (ok: bool)
      modifies this`cluster, obj
      ensures ok <==> Applies(old(obj.content), o, fate)
      ensures cluster == old(cluster) + (if ok then [Stamp(old(obj.content), o)] else [])
    {
      obj.content := obj.content.(labels := obj.content.labels + o.labels);
      obj.content := obj.content.(annotations := obj.content.annotations + o.annotations);
      if obj.content.controller.Some? && obj.content.controller.value != o.deployer { return false; }
      obj.content := obj.content.(controller := Some(o.deployer));
      if fate.Rejected? { return false; }
      cluster := cluster + [obj.content];
      obj.content := fate.answer;
      ok := true;
    }

    /** Apply a deep copy of each object. The objects themselves stay as they are. */
    method ApplyAll(objs: seq<KubeObject>, ghost cs: seq<Content>, o: Ownership, fates: nat -> Fate) returns (ok: bool)
      requires Holds(objs, cs)
      modifies this`cluster
      ensures cluster == old(cluster) + Applied(cs, o, fates)
      ensures ok <==> forall i :: 0 <= i < |cs| ==> Applies(cs[i], o, fates(i))
    {
      ok := true;
      for i := 0 to |objs|
        invariant Holds(objs, cs)
        invariant cluster == old(cluster) + Applied(cs[..i], o, fates)
        invariant ok <==> forall j :: 0 <= j < i ==> Applies(cs[j], o, fates(j))
      {
        var copy := new KubeObject(objs[i].content);
        var applied := Apply(copy, o, fates(i));
        ok := ok && applied;
        assert cs[..i + 1][..i] == cs[..i];
      }
      assert cs[..|cs|] == cs;
    }

    method FindDeployed(uid: string) returns (at: nat)
      ensures at == IndexOf(deployed, uid)
    {
      at := 0;
      while at < |deployed| && deployed[at].uid != uid
        invariant at <= |deployed| && forall j :: 0 <= j < at ==> deployed[j].uid != uid
      {
        at := at + 1;
      }
    }

    method UpdateDeployed(objs: seq<KubeObject>, ghost cs: seq<Content>)
      requires Holds(objs, cs)
      modifies this`deployed
      ensures deployed == UpsertAll(old(deployed), References(cs))
    {
      ghost var refs := References(cs);
      for i := 0 to |objs|
        invariant Holds(objs, cs)
        invariant UpsertAll(deployed, refs[i..]) == UpsertAll(old(deployed), refs)
      {
        assert refs[i..][1..] == refs[i + 1..];
        var c := objs[i].content;
        var ref := Reference(c.apiVersion, c.kind, c.name, c.namespace, c.uid);
        var at := FindDeployed(ref.uid);
        deployed := if at < |deployed| then deployed[at := ref] else deployed + [ref];
      }
      assert refs[0..] == refs && refs[|objs|..] == [];
    }

    /** One reconcile. Whatever the cache holds and whatever happened before: what reaches the cluster is the stamped
        decoding of one manifest that has the Resource's digest, and what is recorded are references to the objects
        as they stand in that manifest, not as the cluster answered. */
    method Reconcile(digest: string, access: Option<Manifest>, o: Ownership, fates: nat -> Fate, tracked: bool)
      returns (ok: bool)
      requires Valid()
      modifies this, downloads, downloads.cache
      ensures Valid() && fresh(objects - old(objects))
      ensures old(Lookup(downloads.cache.entries, digest)).None? && Download(digestOf, digest, access).None? ==>
        !ok && cluster == old(cluster) && deployed == old(deployed)
      ensures old(Lookup(downloads.cache.entries, digest)).Some? || Download(digestOf, digest, access).Some? ==>
        && digest in origin && digestOf(origin[digest]) == digest && Decode(origin[digest]).Some?
        && var cs := Decode(origin[digest]).value;
           && cluster == old(cluster) + Applied(cs, o, fates)
           && (ok <==> tracked && forall i :: 0 <= i < |cs| ==> Applies(cs[i], o, fates(i)))
           && deployed == if ok then UpsertAll(old(deployed), References(cs)) else old(deployed)
    {
      var objs := Load(digest, access);
      if objs.None? { return false; }
      ok := Deploy(objs.value, Decode(origin[digest]).value, o, fates, tracked);
    }

    method Deploy(objs: seq<KubeObject>, ghost cs: seq<Content>, o: Ownership, fates: nat -> Fate, tracked: bool)
      returns (ok: bool)
      requires Holds(objs, cs)
      modifies this`cluster, this`deployed
      ensures cluster == old(cluster) + Applied(cs, o, fates)
      ensures ok <==> tracked && forall i :: 0 <= i < |cs| ==> Applies(cs[i], o, fates(i))
      ensures deployed == if ok then UpsertAll(old(deployed), References(cs)) else old(deployed)
    {
      var applied := ApplyAll(objs, cs, o, fates);
      if !applied || !tracked { return false; }
      UpdateDeployed(objs, cs);
      ok := true;
    }
  }
}
