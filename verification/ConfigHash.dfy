/** Content hashes of configuration objects and the keys under which contexts and sessions are cached.

    SHA-256 is a parameter `H`. Where a result needs it to be free of collisions, this is asked only of the
    finitely many byte strings that the calls in question hash. */
module ConfigHash {
  import opened Results
  import opened Bytes
  import Bags

  type Data = map<ByteString, ByteString>
  type HashFunction = ByteString -> ByteString

  ghost predicate DigestsHave32Bytes(H: HashFunction) {
    forall x :: |H(x)| == 32
  }

  ghost predicate CollisionFree(H: HashFunction, inputs: set<ByteString>) {
    forall x, y :: x in inputs && y in inputs && H(x) == H(y) ==> x == y
  }

  // ---------------------------------------------------------------------------------------------------
  // The canonical encoding of a data map
  // ---------------------------------------------------------------------------------------------------

  ghost function Elements(s: set<ByteString>): (r: seq<ByteString>)
    ensures multiset(r) == multiset(s)
  {
    if s == {} then [] else
      var x :| x in s;
      assert s == {x} + (s - {x});
      [x] + Elements(s - {x})
  }

  ghost function SortedKeys(d: Data): (ks: seq<ByteString>)
    ensures Sorted(ks) && multiset(ks) == multiset(d.Keys)
    ensures forall k :: k in ks <==> k in d
  {
    SortSorts(Elements(d.Keys));
    var ks := Sort(Elements(d.Keys));
    assert forall k :: k in ks <==> k in multiset(ks);
    ks
  }

  /** Key, NUL, value, NUL. */
  function Segment(d: Data, k: ByteString): ByteString
    requires k in d
  {
    k + [0] + d[k] + [0]
  }

  function EncodeKeys(d: Data, ks: seq<ByteString>): ByteString
    requires forall k :: k in ks ==> k in d
  {
    if ks == [] then [] else Segment(d, ks[0]) + EncodeKeys(d, ks[1..])
  }

  ghost function Encode(d: Data): ByteString { EncodeKeys(d, SortedKeys(d)) }

  lemma {:induction false} EncodeKeysAppend(d: Data, ks: seq<ByteString>, k: ByteString)
    requires k in d && forall x :: x in ks ==> x in d
    ensures EncodeKeys(d, ks + [k]) == EncodeKeys(d, ks) + Segment(d, k)
  {
    if ks == [] {
      assert ks + [k] == [k];
    } else {
      assert (ks + [k])[1..] == ks[1..] + [k];
      EncodeKeysAppend(d, ks[1..], k);
      Associate(Segment(d, ks[0]), EncodeKeys(d, ks[1..]), Segment(d, k));
    }
  }

  lemma Associate(a: ByteString, b: ByteString, c: ByteString)
    ensures (a + b) + c == a + (b + c)
  {}

  /** The keys in the arbitrary order in which a map is iterated, then sorted. */
  method CollectSortedKeys(d: Data) returns (ks: seq<ByteString>)
    ensures ks == SortedKeys(d)
  {
    ks := [];
    var rest := d.Keys;
    while rest != {}
      invariant rest <= d.Keys
      invariant multiset(ks) + multiset(rest) == multiset(d.Keys)
      decreases rest
    {
      var k :| k in rest;
      ks := ks + [k];
      rest := rest - {k};
    }
    SortSorts(ks);
    ks := Sort(ks);
    SortedUnique(ks, SortedKeys(d));
  }

  method HashMap(d: Data, H: HashFunction) returns (sum: ByteString)
    ensures sum == H(Encode(d))
  {
    var ks := CollectSortedKeys(d);
    var raw := [];
    for i := 0 to |ks|
      invariant raw == EncodeKeys(d, ks[..i])
    {
      EncodeKeysAppend(d, ks[..i], ks[i]);
      assert ks[..i + 1] == ks[..i] + [ks[i]];
      ghost var before := raw;
      raw := raw + ks[i];
      raw := raw + [0];
      raw := raw + d[ks[i]];
      raw := raw + [0];
      assert raw == before + Segment(d, ks[i]);
    }
    assert ks[..|ks|] == ks;
    sum := H(raw);
  }

  // ---------------------------------------------------------------------------------------------------
  // The encoding can be parsed back
  // ---------------------------------------------------------------------------------------------------

  predicate NulFreeBytes(b: ByteString) { 0 !in b }

  ghost predicate NulFree(d: Data) {
    forall k :: k in d ==> NulFreeBytes(k) && NulFreeBytes(d[k])
  }

  type Entry = (ByteString, ByteString)

  function EntriesOf(d: Data, ks: seq<ByteString>): seq<Entry>
    requires forall k :: k in ks ==> k in d
  {
    if ks == [] then [] else [(ks[0], d[ks[0]])] + EntriesOf(d, ks[1..])
  }

  ghost function Entries(d: Data): seq<Entry> { EntriesOf(d, SortedKeys(d)) }

  /** The part before the first NUL, and whether there is one. */
  function UntilNul(b: ByteString): (i: nat)
    ensures i <= |b| && NulFreeBytes(b[..i]) && (i < |b| ==> b[i] == 0)
  {
    if b == [] || b[0] == 0 then 0 else
      var i := UntilNul(b[1..]);
      assert b[..i + 1] == [b[0]] + b[1..][..i];
      i + 1
  }

  function Parse(raw: ByteString): Option<seq<Entry>>
    decreases |raw|
  {
    if raw == [] then Some([]) else
      var i := UntilNul(raw);
      if i == |raw| then None else
        var rest := raw[i + 1..];
        var j := UntilNul(rest);
        if j == |rest| then None else
          match Parse(rest[j + 1..])
          case None => None
          case Some(es) => Some([(raw[..i], rest[..j])] + es)
  }

  lemma {:induction false} UntilNulFinds(b: ByteString, tail: ByteString)
    requires NulFreeBytes(b)
    ensures UntilNul(b + [0] + tail) == |b|
  {
    var s := b + [0] + tail;
    if b != [] {
      assert s[1..] == b[1..] + [0] + tail;
      UntilNulFinds(b[1..], tail);
    }
  }

  lemma {:induction false} ParseEncodeKeys(d: Data, ks: seq<ByteString>)
    requires NulFree(d) && forall k :: k in ks ==> k in d
    ensures Parse(EncodeKeys(d, ks)) == Some(EntriesOf(d, ks))
  {
    if ks != [] {
      var k, v, tail := ks[0], d[ks[0]], EncodeKeys(d, ks[1..]);
      var raw := EncodeKeys(d, ks);
      assert raw == k + [0] + (v + [0] + tail);
      UntilNulFinds(k, v + [0] + tail);
      var rest := raw[|k| + 1..];
      assert rest == v + [0] + tail;
      UntilNulFinds(v, tail);
      assert rest[|v| + 1..] == tail && raw[..|k|] == k && rest[..|v|] == v;
      ParseEncodeKeys(d, ks[1..]);
    }
  }

  lemma {:induction false} ParsedIsNulFree(raw: ByteString, n: nat)
    requires Parse(raw).Some? && n < |Parse(raw).value|
    ensures var e := Parse(raw).value[n]; NulFreeBytes(e.0) && NulFreeBytes(e.1)
    decreases n
  {
    if n > 0 {
      var rest := raw[UntilNul(raw) + 1..];
      ParsedIsNulFree(rest[UntilNul(rest) + 1..], n - 1);
    }
  }

  lemma {:induction false} EntriesHold(d: Data, ks: seq<ByteString>, k: ByteString)
    requires forall x :: x in ks ==> x in d
    requires k in ks
    ensures (k, d[k]) in EntriesOf(d, ks)
  {
    if k != ks[0] {
      EntriesHold(d, ks[1..], k);
    }
  }

  lemma {:induction false} EntriesOnly(d: Data, ks: seq<ByteString>, e: Entry)
    requires forall x :: x in ks ==> x in d
    requires e in EntriesOf(d, ks)
    ensures e.0 in d && d[e.0] == e.1
    decreases |ks|
  {
    if e != (ks[0], d[ks[0]]) {
      EntriesOnly(d, ks[1..], e);
    }
  }

  /** The encoding round-trips exactly on NUL-free data: a value with a NUL byte is never read back. */
  lemma EncodingRoundTrip(d: Data)
    ensures Parse(Encode(d)) == Some(Entries(d)) <==> NulFree(d)
  {
    if NulFree(d) {
      ParseEncodeKeys(d, SortedKeys(d));
    } else if Parse(Encode(d)) == Some(Entries(d)) {
      forall k | k in d ensures NulFreeBytes(k) && NulFreeBytes(d[k]) {
        EntriesHold(d, SortedKeys(d), k);
        var n :| 0 <= n < |Entries(d)| && Entries(d)[n] == (k, d[k]);
        ParsedIsNulFree(Encode(d), n);
      }
    }
  }

  lemma EntriesDetermine(d1: Data, d2: Data)
    requires Entries(d1) == Entries(d2)
    ensures d1 == d2
  {
    forall k | k in d1 ensures k in d2 && d2[k] == d1[k] {
      EntriesHold(d1, SortedKeys(d1), k);
      EntriesOnly(d2, SortedKeys(d2), (k, d1[k]));
    }
    forall k | k in d2 ensures k in d1 {
      EntriesHold(d2, SortedKeys(d2), k);
      EntriesOnly(d1, SortedKeys(d1), (k, d2[k]));
    }
  }

  lemma EncodingInjective(d1: Data, d2: Data)
    requires NulFree(d1) && NulFree(d2) && Encode(d1) == Encode(d2)
    ensures d1 == d2
  {
    EncodingRoundTrip(d1);
    EncodingRoundTrip(d2);
    EntriesDetermine(d1, d2);
  }

  /** Key, NUL, value, NUL. */
  lemma EncodeOne(d: Data, a: ByteString)
    requires d.Keys == {a}
    ensures Encode(d) == a + [0] + d[a] + [0]
  {
    SortedUnique(SortedKeys(d), [a]);
    assert multiset([a]) == multiset({a});
    assert [a][1..] == [];
    assert EncodeKeys(d, [a]) == Segment(d, a) + EncodeKeys(d, []);
  }

  /** The lower key first. */
  lemma {:induction false} EncodeTwo(d: Data, a: ByteString, b: ByteString)
    requires d.Keys == {a, b} && a != b && LexLeq(a, b)
    ensures Encode(d) == (a + [0] + d[a] + [0]) + (b + [0] + d[b] + [0])
  {
    var ks := [a] + [b];
    assert multiset(ks) == multiset{a} + multiset{b};
    assert multiset(d.Keys) == multiset{a} + multiset{b};
    assert Sorted(ks);
    SortedUnique(SortedKeys(d), ks);
    assert ks[1..] == [b] && [b][1..] == [];
    assert EncodeKeys(d, [b]) == Segment(d, b);
  }

  lemma Regroup(a: ByteString, x: ByteString, b: ByteString, y: ByteString)
    ensures a + [0] + (x + [0] + b + [0] + y) + [0] == (a + [0] + x + [0]) + (b + [0] + y + [0])
  {}

  /** A value with NUL bytes can imitate a further entry: such a map and the map with that entry have one encoding,
      and so one hash, whatever the hash function. */
  lemma {:induction false} NulByteCollision(a: ByteString, x: ByteString, b: ByteString, y: ByteString)
    requires a != b && LexLeq(a, b)
    ensures var d1: Data, d2: Data := map[a := x + [0] + b + [0] + y], map[a := x, b := y];
      d1 != d2 && Encode(d1) == Encode(d2)
  {
    var d1: Data, d2: Data := map[a := x + [0] + b + [0] + y], map[a := x, b := y];
    assert b in d2 && b !in d1;
    EncodeOne(d1, a);
    EncodeTwo(d2, a, b);
    Regroup(a, x, b, y);
  }

  // ---------------------------------------------------------------------------------------------------
  // Hashing several objects
  // ---------------------------------------------------------------------------------------------------

  datatype ConfigObject =
    | Secret(data: Data)
    | ConfigMap(data: Data, binaryData: Data)
    | OtherObject

  /** The data that is hashed: in a ConfigMap, binary data overrides data under the same key. */
  function ObjectData(o: ConfigObject): Data {
    match o
    case Secret(data) => data
    case ConfigMap(data, binaryData) => data + binaryData
    case OtherObject => map[]
  }

  method GetConfigMapDataHash(data: Data, binaryData: Data, H: HashFunction) returns (sum: ByteString)
    ensures sum == H(Encode(data + binaryData))
  {
    var m: Data := map[];
    var rest := data.Keys;
    while rest != {}
      invariant rest <= data.Keys
      invariant m.Keys == data.Keys - rest && forall k :: k in m ==> m[k] == data[k]
      decreases rest
    {
      var k :| k in rest;
      m := m[k := data[k]];
      rest := rest - {k};
    }
    assert m == data;
    rest := binaryData.Keys;
    while rest != {}
      invariant rest <= binaryData.Keys
      invariant m.Keys == data.Keys + (binaryData.Keys - rest)
      invariant forall k :: k in m ==>
        m[k] == if k in binaryData && k !in rest then binaryData[k] else if k in data then data[k] else m[k]
      decreases rest
    {
      var k :| k in rest;
      m := m[k := binaryData[k]];
      rest := rest - {k};
    }
    assert m == data + binaryData;
    sum := HashMap(m, H);
  }

  method GetObjectHash(o: ConfigObject, H: HashFunction) returns (r: Result<ByteString, string>)
    ensures r == if o.OtherObject? then Err("unsupported object type for data hash calculation") else Ok(H(Encode(ObjectData(o))))
  {
    match o
    case Secret(data) =>
      var sum := HashMap(data, H);
      r := Ok(sum);
    case ConfigMap(data, binaryData) =>
      var sum := GetConfigMapDataHash(data, binaryData, H);
      r := Ok(sum);
    case OtherObject =>
      r := Err("unsupported object type for data hash calculation");
  }

  predicate Supported(objects: seq<ConfigObject>) {
    forall o :: o in objects ==> !o.OtherObject?
  }

  ghost function ObjectDigest(H: HashFunction): ConfigObject -> ByteString {
    (o: ConfigObject) => H(Encode(ObjectData(o)))
  }

  ghost function Digests(objects: seq<ConfigObject>, H: HashFunction): seq<ByteString> {
    Bags.Map(ObjectDigest(H), objects)
  }

  /** The byte string whose digest is the result: the sorted object digests, one after the other. */
  ghost function Aggregate(objects: seq<ConfigObject>, H: HashFunction): ByteString {
    Concat(Sort(Digests(objects, H)))
  }

  ghost function DataHash(objects: seq<ConfigObject>, H: HashFunction): string {
    Hex(H(Aggregate(objects, H)))
  }

  method GetObjectDataHash(objects: seq<ConfigObject>, H: HashFunction) returns (r: Result<string, string>)
    ensures r.Ok? <==> Supported(objects)
    ensures r.Ok? ==> r.value == DataHash(objects, H)
  {
    var digests := [];
    for i := 0 to |objects|
      invariant Supported(objects[..i])
      invariant digests == Digests(objects[..i], H)
    {
      var d := GetObjectHash(objects[i], H);
      if d.Err? { return Err(d.error); }
      digests := digests + [d.value];
    }
    assert objects[..|objects|] == objects;
    r := Ok(Hex(H(Concat(Sort(digests)))));
  }

  lemma {:induction false} SortedDigestsAgree(a: seq<ByteString>, b: seq<ByteString>)
    ensures Sort(a) == Sort(b) <==> multiset(a) == multiset(b)
  {
    SortSorts(a);
    SortSorts(b);
    if multiset(a) == multiset(b) { SortedUnique(Sort(a), Sort(b)); }
  }

  /** The order in which the objects are listed does not matter. */
  lemma HashIgnoresOrder(a: seq<ConfigObject>, b: seq<ConfigObject>, H: HashFunction)
    requires multiset(a) == multiset(b)
    ensures DataHash(a, H) == DataHash(b, H)
  {
    Bags.MapPermutes(ObjectDigest(H), a, b);
    SortedDigestsAgree(Digests(a, H), Digests(b, H));
  }

  /** Equal hashes mean exactly equal multisets of object digests. */
  lemma HashIsOfDigestMultiset(a: seq<ConfigObject>, b: seq<ConfigObject>, H: HashFunction)
    requires DigestsHave32Bytes(H) && CollisionFree(H, {Aggregate(a, H), Aggregate(b, H)})
    ensures DataHash(a, H) == DataHash(b, H) <==> multiset(Digests(a, H)) == multiset(Digests(b, H))
  {
    var da, db := Digests(a, H), Digests(b, H);
    SortedDigestsAgree(da, db);
    if DataHash(a, H) == DataHash(b, H) {
      HexInjective(H(Aggregate(a, H)), H(Aggregate(b, H)));
      assert Aggregate(a, H) == Aggregate(b, H);
      DigestsAreBlocks(a, H);
      DigestsAreBlocks(b, H);
      AggregateReflects(da, db);
    }
  }

  lemma DigestsAreBlocks(a: seq<ConfigObject>, H: HashFunction)
    requires DigestsHave32Bytes(H)
    ensures Blocks(Digests(a, H))
  {
    forall i | 0 <= i < |a| ensures |Digests(a, H)[i]| == 32 {
      assert Digests(a, H)[i] == H(Encode(ObjectData(a[i])));
    }
  }

  predicate Blocks(digests: seq<ByteString>) {
    forall i :: 0 <= i < |digests| ==> |digests[i]| == 32
  }

  lemma {:induction false} AggregateReflects(da: seq<ByteString>, db: seq<ByteString>)
    requires Blocks(da) && Blocks(db)
    requires Concat(Sort(da)) == Concat(Sort(db))
    ensures Sort(da) == Sort(db)
  {
    SortKeepsLength(da);
    SortKeepsLength(db);
    ConcatInjective(Sort(da), Sort(db), 32);
  }

  lemma {:induction false} SortKeepsLength(digests: seq<ByteString>)
    requires Blocks(digests)
    ensures Blocks(Sort(digests))
  {
    SortSorts(digests);
    forall i | 0 <= i < |Sort(digests)| ensures |Sort(digests)[i]| == 32 {
      assert Sort(digests)[i] in multiset(digests);
    }
  }

  /** Every byte string that is hashed for a list of objects. */
  ghost function HashedInputs(objects: seq<ConfigObject>, H: HashFunction): set<ByteString> {
    {Aggregate(objects, H)} + set o | o in objects :: Encode(ObjectData(o))
  }

  ghost function DataOf(objects: seq<ConfigObject>): seq<Data> { Bags.Map(ObjectData, objects) }

  ghost function DataDigest(H: HashFunction): Data -> ByteString { (d: Data) => H(Encode(d)) }

  lemma DigestsOfData(a: seq<ConfigObject>, H: HashFunction)
    ensures Digests(a, H) == Bags.Map(DataDigest(H), DataOf(a))
  {}

  lemma DigestInjectiveOnContents(a: seq<ConfigObject>, b: seq<ConfigObject>, H: HashFunction)
    requires CollisionFree(H, HashedInputs(a, H) + HashedInputs(b, H))
    requires forall o :: o in a || o in b ==> NulFree(ObjectData(o))
    ensures Bags.InjectiveOn(DataDigest(H), DataOf(a), DataOf(b))
  {
    forall x, y |
      && (x in DataOf(a) || x in DataOf(b)) && (y in DataOf(a) || y in DataOf(b))
      && DataDigest(H)(x) == DataDigest(H)(y)
      ensures x == y
    {
      var o := SomeObject(a, b, x);
      var p := SomeObject(a, b, y);
      assert Encode(x) in HashedInputs(a, H) + HashedInputs(b, H);
      assert Encode(y) in HashedInputs(a, H) + HashedInputs(b, H);
      EncodingInjective(x, y);
    }
  }

  /** Equal hashes mean exactly equal multisets of object contents. */
  lemma HashIsOfContents(a: seq<ConfigObject>, b: seq<ConfigObject>, H: HashFunction)
    requires DigestsHave32Bytes(H) && CollisionFree(H, HashedInputs(a, H) + HashedInputs(b, H))
    requires forall o :: o in a || o in b ==> NulFree(ObjectData(o))
    ensures DataHash(a, H) == DataHash(b, H) <==> multiset(DataOf(a)) == multiset(DataOf(b))
  {
    HashIsOfDigestMultiset(a, b, H);
    DigestsOfData(a, H);
    DigestsOfData(b, H);
    if multiset(DataOf(a)) == multiset(DataOf(b)) {
      Bags.MapPermutes(DataDigest(H), DataOf(a), DataOf(b));
    }
    if multiset(Digests(a, H)) == multiset(Digests(b, H)) {
      DigestInjectiveOnContents(a, b, H);
      Bags.MapReflects(DataDigest(H), DataOf(a), DataOf(b));
    }
  }

  lemma SomeObject(a: seq<ConfigObject>, b: seq<ConfigObject>, d: Data) returns (o: ConfigObject)
    requires d in DataOf(a) || d in DataOf(b)
    ensures (o in a || o in b) && ObjectData(o) == d
  {
    if d in DataOf(a) {
      var i :| 0 <= i < |DataOf(a)| && DataOf(a)[i] == d;
      o := a[i];
    } else {
      var i :| 0 <= i < |DataOf(b)| && DataOf(b)[i] == d;
      o := b[i];
    }
  }

  /** What a ConfigMap holds under a key, binary data first. */
  predicate HoldsAt(data: Data, binaryData: Data, k: ByteString, v: ByteString) {
    if k in binaryData then binaryData[k] == v else k in data && data[k] == v
  }

  /** Two ConfigMaps hash alike exactly if they hold the same under every key, be it as text or as binary data. */
  lemma ConfigMapsHashAlikeIff(d1: Data, b1: Data, d2: Data, b2: Data, H: HashFunction)
    requires var x, y := [ConfigMap(d1, b1)], [ConfigMap(d2, b2)];
      DigestsHave32Bytes(H) && CollisionFree(H, HashedInputs(x, H) + HashedInputs(y, H))
    requires NulFree(d1 + b1) && NulFree(d2 + b2)
    ensures DataHash([ConfigMap(d1, b1)], H) == DataHash([ConfigMap(d2, b2)], H) <==>
      forall k, v :: HoldsAt(d1, b1, k, v) <==> HoldsAt(d2, b2, k, v)
  {
    var x, y := [ConfigMap(d1, b1)], [ConfigMap(d2, b2)];
    HashIsOfContents(x, y, H);
    OneData(x[0]);
    OneData(y[0]);
    assert d1 + b1 == d2 + b2 <==> multiset{d1 + b1} == multiset{d2 + b2} by {
      assert d1 + b1 in multiset{d1 + b1};
    }
    SameContents(d1, b1, d2, b2);
  }

  lemma OneData(o: ConfigObject)
    ensures DataOf([o]) == [ObjectData(o)]
  {
    assert [o][1..] == [];
  }

  lemma SameContents(d1: Data, b1: Data, d2: Data, b2: Data)
    ensures d1 + b1 == d2 + b2 <==> forall k, v :: HoldsAt(d1, b1, k, v) <==> HoldsAt(d2, b2, k, v)
  {
    forall k, v ensures HoldsAt(d1, b1, k, v) <==> k in d1 + b1 && (d1 + b1)[k] == v {}
    forall k, v ensures HoldsAt(d2, b2, k, v) <==> k in d2 + b2 && (d2 + b2)[k] == v {}
    if forall k, v :: HoldsAt(d1, b1, k, v) <==> HoldsAt(d2, b2, k, v) {
      forall k | k in d1 + b1 ensures k in d2 + b2 && (d2 + b2)[k] == (d1 + b1)[k] {
        assert HoldsAt(d1, b1, k, (d1 + b1)[k]);
      }
      forall k | k in d2 + b2 ensures k in d1 + b1 {
        assert HoldsAt(d2, b2, k, (d2 + b2)[k]);
      }
    }
  }

  /** A Secret hashes like a ConfigMap that holds the same: the kind is not part of the hash. */
  lemma KindIsNotHashed(data: Data, H: HashFunction)
    ensures DataHash([Secret(data)], H) == DataHash([ConfigMap(data, map[])], H)
    ensures DataHash([Secret(data)], H) == DataHash([ConfigMap(map[], data)], H)
  {
    assert data + map[] == data && map[] + data == data;
    assert ObjectData(Secret(data)) == ObjectData(ConfigMap(data, map[])) == ObjectData(ConfigMap(map[], data)) == data;
    OneDigest(Secret(data), H);
    OneDigest(ConfigMap(data, map[]), H);
    OneDigest(ConfigMap(map[], data), H);
  }

  lemma OneDigest(o: ConfigObject, H: HashFunction)
    ensures Digests([o], H) == [H(Encode(ObjectData(o)))]
  {
    assert [o][1..] == [];
  }

  // ---------------------------------------------------------------------------------------------------
  // Keys of the context cache
  // ---------------------------------------------------------------------------------------------------

  datatype SessionKey = SessionKey(ctxHash: string, repoHash: string)

  /** hashBytesHex with a fresh hash: Sum(b) appends the digest of no input to b, it does not hash b. */
  function RepoHash(raw: Option<ByteString>, H: HashFunction): string {
    match raw
    case None => ""
    case Some(b) => Hex(b + H([]))
  }

  ghost function KeyOf(objects: seq<ConfigObject>, raw: Option<ByteString>, H: HashFunction): SessionKey {
    SessionKey(DataHash(objects, H), RepoHash(raw, H))
  }

  /** What is in the key is the raw specification itself. */
  lemma {:induction false} RepoHashIsNoHash(raw: ByteString, H: HashFunction)
    ensures Hex(raw) <= RepoHash(Some(raw), H)
    ensures |RepoHash(Some(raw), H)| == 2 * |raw| + 2 * |H([])|
  {
    HexInParts(raw, H([]));
  }

  lemma {:induction false} HexInParts(a: ByteString, b: ByteString)
    ensures Hex(a + b) == Hex(a) + Hex(b)
  {
    if a == [] {
      assert a + b == b;
    } else {
      assert (a + b)[1..] == a[1..] + b;
      HexInParts(a[1..], b);
    }
  }

  /** So specs are told apart without any assumption about collisions, a nil spec included. */
  lemma RepoHashInjective(r1: Option<ByteString>, r2: Option<ByteString>, H: HashFunction)
    requires H([]) != []
    ensures RepoHash(r1, H) == RepoHash(r2, H) <==> r1 == r2
  {
    if r1.Some? && r2.Some? && RepoHash(r1, H) == RepoHash(r2, H) {
      HexInjective(r1.value + H([]), r2.value + H([]));
      assert r1.value == (r1.value + H([]))[..|r1.value|];
      assert r2.value == (r2.value + H([]))[..|r2.value|];
    }
  }

  /** Two calls use one session key exactly when their repository specs are byte-identical and their
      configuration contents agree as multisets. */
  lemma SessionKeysAgree(a: seq<ConfigObject>, r1: Option<ByteString>, b: seq<ConfigObject>, r2: Option<ByteString>,
                         H: HashFunction)
    requires DigestsHave32Bytes(H) && CollisionFree(H, HashedInputs(a, H) + HashedInputs(b, H))
    requires forall o :: o in a || o in b ==> NulFree(ObjectData(o))
    ensures KeyOf(a, r1, H) == KeyOf(b, r2, H) <==> r1 == r2 && multiset(DataOf(a)) == multiset(DataOf(b))
  {
    HashIsOfContents(a, b, H);
    assert |H([])| == 32;
    RepoHashInjective(r1, r2, H);
  }
}
