/** The references to deployed objects in a Deployer's status. References are told apart by UID alone. */
module DeployedStatus {
  import opened Results

  datatype Reference = Reference(apiVersion: string, kind: string, name: string, namespace: string, uid: string)

  /** The position of the first reference with this UID, or the length. */
  function IndexOf(refs: seq<Reference>, uid: string): (i: nat)
    ensures i <= |refs|
    ensures i < |refs| ==> refs[i].uid == uid
    ensures forall j :: 0 <= j < i ==> refs[j].uid != uid
  {
    if refs == [] || refs[0].uid == uid then 0 else 1 + IndexOf(refs[1..], uid)
  }

  function Upsert(refs: seq<Reference>, ref: Reference): seq<Reference> {
    var i := IndexOf(refs, ref.uid);
    if i < |refs| then refs[i := ref] else refs + [ref]
  }

  function UpsertAll(refs: seq<Reference>, news: seq<Reference>): seq<Reference>
    decreases |news|
  {
    if news == [] then refs else UpsertAll(Upsert(refs, news[0]), news[1..])
  }

  ghost predicate DistinctUids(refs: seq<Reference>) {
    forall i, j :: 0 <= i < j < |refs| ==> refs[i].uid != refs[j].uid
  }

  /** The last reference with this UID. */
  function Latest(refs: seq<Reference>, uid: string): Option<Reference> {
    if refs == [] then None
    else if Latest(refs[1..], uid).Some? then Latest(refs[1..], uid)
    else if refs[0].uid == uid then Some(refs[0])
    else None
  }

  lemma UpsertFacts(refs: seq<Reference>, ref: Reference)
    requires DistinctUids(refs)
    ensures DistinctUids(Upsert(refs, ref)) && ref in Upsert(refs, ref)
    ensures forall r :: r in Upsert(refs, ref) <==> r == ref || (r in refs && r.uid != ref.uid)
  {
    var i, t := IndexOf(refs, ref.uid), Upsert(refs, ref);
    assert t[i] == ref;
    forall r | r in refs && r.uid != ref.uid ensures r in t {
      var j :| 0 <= j < |refs| && refs[j] == r;
      assert t[j] == r;
    }
  }

  ghost predicate LastAt(refs: seq<Reference>, uid: string, j: nat) {
    j < |refs| && refs[j].uid == uid && forall k :: j < k < |refs| ==> refs[k].uid != uid
  }

  lemma {:induction false} LatestIsLast(refs: seq<Reference>, uid: string)
    ensures Latest(refs, uid).None? <==> forall k :: 0 <= k < |refs| ==> refs[k].uid != uid
    ensures forall j: nat :: LastAt(refs, uid, j) ==> Latest(refs, uid) == Some(refs[j])
    ensures Latest(refs, uid).Some? ==> exists j: nat :: LastAt(refs, uid, j)
  {
    if refs != [] {
      var t := refs[1..];
      LatestIsLast(t, uid);
      assert forall k :: 1 <= k < |refs| ==> refs[k] == t[k - 1];
      forall j: nat | LastAt(refs, uid, j) ensures Latest(refs, uid) == Some(refs[j]) {
        if j > 0 { assert LastAt(t, uid, j - 1); }
      }
      if Latest(t, uid).Some? {
        var j: nat :| LastAt(t, uid, j);
        assert LastAt(refs, uid, j + 1);
      } else if refs[0].uid == uid {
        assert LastAt(refs, uid, 0);
      }
    }
  }

  /** Per UID, the status ends up with the last new reference, or keeps the old one if there is none. */
  lemma {:induction false} LastPerUidIsKept(refs: seq<Reference>, news: seq<Reference>)
    requires DistinctUids(refs)
    ensures DistinctUids(UpsertAll(refs, news))
    ensures forall r :: r in UpsertAll(refs, news) <==>
      Latest(news, r.uid) == Some(r) || (Latest(news, r.uid).None? && r in refs)
    decreases |news|
  {
    if news != [] {
      var refs', later := Upsert(refs, news[0]), news[1..];
      UpsertFacts(refs, news[0]);
      LastPerUidIsKept(refs', later);
      LatestIsLast(later, news[0].uid);
    }
  }

  /** From an empty status: an object is recorded exactly if no later object with its UID differs from the last one
      of that UID, so objects that share a UID push each other out. */
  lemma {:induction false} RecordedIfLastOfItsUid(news: seq<Reference>, r: Reference)
    ensures r in UpsertAll([], news) <==> exists j: nat :: LastAt(news, r.uid, j) && news[j] == r
  {
    LastPerUidIsKept([], news);
    LatestIsLast(news, r.uid);
  }

  lemma SingleMember(refs: seq<Reference>, x: Reference)
    requires DistinctUids(refs) && forall r :: r in refs <==> r == x
    ensures refs == [x]
  {
    assert x in refs;
    var i :| 0 <= i < |refs| && refs[i] == x;
    forall k | 0 <= k < |refs| ensures refs[k] == x && k == i {
      assert refs[k] in refs && refs[k].uid == refs[i].uid;
    }
    assert refs[0] == x && refs[|refs| - 1] == x;
  }

  /** Objects that have no UID, as they come out of a manifest: only the last of them is recorded. */
  lemma {:induction false} WithoutUidsOnlyTheLastIsRecorded(news: seq<Reference>)
    requires news != [] && forall i :: 0 <= i < |news| ==> news[i].uid == ""
    ensures UpsertAll([], news) == [news[|news| - 1]]
  {
    var result, last := UpsertAll([], news), news[|news| - 1];
    LastPerUidIsKept([], news);
    forall r ensures r in result <==> r == last {
      RecordedIfLastOfItsUid(news, r);
      assert LastAt(news, "", |news| - 1);
    }
    SingleMember(result, last);
  }

  /** All objects are recorded exactly if those that share a UID are the same. */
  lemma {:induction false} AllRecordedIff(news: seq<Reference>)
    ensures (forall r :: r in news ==> r in UpsertAll([], news)) <==>
      forall i, j :: 0 <= i < j < |news| && news[i].uid == news[j].uid ==> news[i] == news[j]
  {
    LastPerUidIsKept([], news);
    var result := UpsertAll([], news);
    if forall i, j :: 0 <= i < j < |news| && news[i].uid == news[j].uid ==> news[i] == news[j] {
      forall r | r in news ensures r in result {
        LatestIsLast(news, r.uid);
        var j: nat :| LastAt(news, r.uid, j);
        var i :| 0 <= i < |news| && news[i] == r;
      }
    } else {
      var i, j :| 0 <= i < j < |news| && news[i].uid == news[j].uid && news[i] != news[j];
      assert news[i] in news && news[j] in news;
    }
  }
}
