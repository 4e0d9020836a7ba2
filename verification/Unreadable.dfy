/** src/persist.cpp: what the encoder takes and the decoder refuses, backends with many capabilities and objects of a
    kind that is none. */
module Unreadable {
  import opened Bytes
  import opened Status
  import opened Model
  import opened Layout
  import opened Records
  import opened Snapshots

  /** A backend with more than 16 capabilities passes the encoder's cap and fails the decoder's. */
  lemma CapabilitiesRefused(s: Snapshot, b: Backend)
    requires Typed(SnapshotData(s), SNAPSHOT) && Encodable(SnapshotData(s))
    requires b in s.backends && |b.capabilities| > 16
    ensures Serialized(s).Ok? && Deserialized(Serialized(s).value).Err?
  {
    hide Typed, Encodable, Encode, Take, File, Deserialized, UniqueIds, KeysDistinct, BackendData, SnapshotData;
    var pl := Payload(s);
    FilePayload(pl);
    TakeOfEncode(SnapshotData(s), SNAPSHOT, []);
    assert pl + [] == pl;
    if Decodable(SnapshotData(s), SNAPSHOT) {
      CapabilitiesBounded(s, b);
    }
  }

  /** The encoder writes the byte of any kind, the decoder knows twelve. */
  lemma KindRefused(s: Snapshot, o: Object)
    requires Typed(SnapshotData(s), SNAPSHOT) && Encodable(SnapshotData(s))
    requires o in s.objects && o.kind >= 12
    ensures Serialized(s).Ok? && Deserialized(Serialized(s).value).Err?
  {
    hide Typed, Encodable, Encode, Take, File, Deserialized, UniqueIds, KeysDistinct, ObjectData, SnapshotData;
    var pl := Payload(s);
    FilePayload(pl);
    TakeOfEncode(SnapshotData(s), SNAPSHOT, []);
    assert pl + [] == pl;
    if Decodable(SnapshotData(s), SNAPSHOT) {
      KindBounded(s, o);
    }
  }

  lemma KindBounded(s: Snapshot, o: Object)
    requires Within(SnapshotData(s), SNAPSHOT) && o in s.objects
    ensures o.kind < 12
  {
    hide Within, ObjectData;
    var d := SnapshotData(s);
    GroupFields(d, SNAPSHOT.fields);
    ListItems(d.fields[6], OBJECT, MAX_RECORDS);
    var i :| 0 <= i < |s.objects| && s.objects[i] == o;
    assert Each(s.objects, ObjectData)[i] in d.fields[6].items;
    ObjectKind(o);
  }

  lemma ObjectKind(o: Object)
    requires Within(ObjectData(o), OBJECT)
    ensures o.kind < 12
  {
    GroupFields(ObjectData(o), OBJECT.fields);
    assert Within(ObjectData(o).fields[2], OBJECT.fields[2]);
  }

  lemma CapabilitiesBounded(s: Snapshot, b: Backend)
    requires Within(SnapshotData(s), SNAPSHOT) && b in s.backends
    ensures |b.capabilities| <= 16
  {
    hide Within, BackendData;
    var d := SnapshotData(s);
    GroupFields(d, SNAPSHOT.fields);
    ListItems(d.fields[10], BACKEND, MAX_RECORDS);
    var i :| 0 <= i < |s.backends| && s.backends[i] == b;
    assert Each(s.backends, BackendData)[i] in d.fields[10].items;
    BackendCapabilities(b);
  }

  lemma BackendCapabilities(b: Backend)
    requires Within(BackendData(b), BACKEND)
    ensures |b.capabilities| <= 16
  {
    GroupFields(BackendData(b), BACKEND.fields);
    assert Within(BackendData(b).fields[11], BACKEND.fields[11]);
  }

  function Capable(count: nat): Backend {
    Backend(1, 1, 1, [], 1, Capacity(0, 0, 0, 0, 0, false), seq(count, _ => 0), 0, 0, 0, 0)
  }

  const SAVER := Authority(0, 0, 0, 0, 5)

  const NO_COUNTS: seq<nat> := [0, 0, 0, 0, 0, 0, 0, 0, 0, 0, 0, 0, 0, 0, 0, 0, 0, 0, 0, 0, 0]

  /** What an empty runtime would save, and these records. */
  function Small(os: seq<Object>, rss: seq<ReplicaSet>, bs: seq<Backend>): Snapshot {
    Snapshot(0, SAVER, 0, 0, NO_COUNTS, os, [], [], rss, bs, [], [])
  }

  // ----- Records of small numbers, short strings and lists of small numbers -----

  /** Of its field's type, and written without complaint. */
  ghost predicate Good(d: Datum, f: Format) {
    Typed(d, f) && Encodable(d)
  }

  predicate Modest(d: Datum, f: Format) {
    match (d, f)
    case (N(n), Num(width, _)) => n < 256 && width > 0
    case (T(s), Text) => |s| <= 32
    case (T(s), Digest32) => |s| == 32
    case (L(items), List(_, _)) =>
      |items| <= 32 && (forall x <- items :: x.N? && x.n < 256) && (items != [] ==> f.item.Num? && f.item.width > 0)
    case _ => false
  }

  predicate AllModest(ds: seq<Datum>, fs: seq<Format>) {
    |ds| == |fs| && forall i :: 0 <= i < |fs| ==> Modest(ds[i], fs[i])
  }

  lemma RadixGrows(width: nat)
    requires width > 0
    ensures Radix(width) >= 256
  {
    if width > 1 {
      RadixGrows(width - 1);
    }
  }

  lemma GoodNumber(n: nat, f: Format)
    requires n < 256 && f.Num? && f.width > 0
    ensures Good(N(n), f)
  {
    hide Radix;
    RadixGrows(f.width);
  }

  lemma GoodList(items: seq<Datum>, item: Format, most: nat)
    requires |items| <= MAX_RECORDS && forall x <- items :: Good(x, item)
    ensures Good(L(items), List(item, most))
  {}

  lemma ModestGood(d: Datum, f: Format)
    requires Modest(d, f)
    ensures Good(d, f)
  {
    if f.Num? {
      GoodNumber(d.n, f);
    } else if f.List? {
      hide Good;
      forall x | x in d.items
        ensures Good(x, f.item)
      {
        GoodNumber(x.n, f.item);
      }
      GoodList(d.items, f.item, f.most);
    }
  }

  lemma GroupTyped(ds: seq<Datum>, fs: seq<Format>)
    requires TypedAll(ds, fs)
    ensures Typed(G(ds), Group(fs))
  {}

  lemma GroupEncodable(ds: seq<Datum>)
    requires forall x <- ds :: Encodable(x)
    ensures Encodable(G(ds))
  {}

  lemma GoodGroup(ds: seq<Datum>, fs: seq<Format>)
    requires |ds| == |fs| && forall i :: 0 <= i < |fs| ==> Good(ds[i], fs[i])
    ensures Good(G(ds), Group(fs))
  {
    hide Typed, Encodable;
    TypedEach(ds, fs);
    GroupTyped(ds, fs);
    GroupEncodable(ds);
  }

  lemma ModestGroup(ds: seq<Datum>, fs: seq<Format>)
    requires AllModest(ds, fs)
    ensures Good(G(ds), Group(fs))
  {
    hide Good, Modest;
    forall i | 0 <= i < |fs|
      ensures Good(ds[i], fs[i])
    {
      ModestGood(ds[i], fs[i]);
    }
    GoodGroup(ds, fs);
  }

  lemma CapableGood(count: nat)
    requires count <= 32
    ensures Good(BackendData(Capable(count)), BACKEND)
  {
    hide Good;
    var d := BackendData(Capable(count));
    ModestGroup(d.fields, BACKEND.fields);
  }

  lemma SaverGood()
    ensures Good(AuthorityData(SAVER), AUTHORITY)
  {
    hide Good;
    ModestGroup(AuthorityData(SAVER).fields, AUTHORITY.fields);
  }

  lemma CountsGood()
    ensures Good(G(Each(NO_COUNTS, Number)), COUNTERS)
  {
    hide Good;
    ModestGroup(Each(NO_COUNTS, Number), COUNTERS.fields);
  }

  // ----- Whole snapshots of such records -----

  function SmallFields(os: seq<Object>, rss: seq<ReplicaSet>, bs: seq<Backend>): seq<Datum> {
    [N(1), N(0), AuthorityData(SAVER), N(0), N(0), G(Each(NO_COUNTS, Number)), L(Each(os, ObjectData)), L([]), L([]),
     L(Each(rss, ReplicaSetData)), L(Each(bs, BackendData)), L([]), L([])]
  }

  lemma SmallData(os: seq<Object>, rss: seq<ReplicaSet>, bs: seq<Backend>)
    ensures SnapshotData(Small(os, rss, bs)) == G(SmallFields(os, rss, bs))
  {
    hide BackendData, AuthorityData, ObjectData, ReplicaSetData;
  }

  lemma SmallSnapshot(os: seq<Object>, rss: seq<ReplicaSet>, bs: seq<Backend>)
    requires |os| <= 1 && |rss| <= 1 && |bs| <= 1
    requires (forall o <- os :: Good(ObjectData(o), OBJECT)) && (forall rs <- rss :: Good(ReplicaSetData(rs), REPLICA_SET))
    requires forall b <- bs :: Good(BackendData(b), BACKEND)
    ensures Good(SnapshotData(Small(os, rss, bs)), SNAPSHOT)
  {
    hide Good, BackendData, AuthorityData, ObjectData, ReplicaSetData, SnapshotData;
    var ds := SmallFields(os, rss, bs);
    SmallData(os, rss, bs);
    GoodNumber(0, U64_FIELD);
    GoodNumber(1, BYTE_FIELD);
    SaverGood();
    CountsGood();
    GoodList(Each(os, ObjectData), OBJECT, MAX_RECORDS);
    GoodList([], MANIFEST, MAX_RECORDS);
    GoodList([], PLACEMENT, MAX_RECORDS);
    GoodList(Each(rss, ReplicaSetData), REPLICA_SET, MAX_RECORDS);
    GoodList(Each(bs, BackendData), BACKEND, MAX_RECORDS);
    GoodList([], TRANSFER, MAX_RECORDS);
    GoodList([], AUTHORITY, MAX_RECORDS);
    GoodGroup(ds, SNAPSHOT.fields);
  }

  /** Seventeen capabilities are enough. */
  lemma SeventeenCapabilities() returns (s: Snapshot)
    ensures |s.backends| == 1 && |s.backends[0].capabilities| == 17
    ensures Serialized(s).Ok? && Deserialized(Serialized(s).value).Err?
  {
    hide Typed, Encodable, Encode, Take, File, Deserialized, BackendData, SnapshotData;
    s := Small([], [], [Capable(17)]);
    CapableGood(17);
    SmallSnapshot([], [], [Capable(17)]);
    CapabilitiesRefused(s, Capable(17));
  }

  // ----- A defined object -----

  /** As define_object makes it in an empty runtime, of one byte and any kind. */
  function OfKind(kind: nat, digest: Digest, creator: bytes): Object {
    Object(1, 1, kind, 1, digest, 1, Provenance(ORIGIN_RUNNER, 1, 1, 1, creator), 1, 0, STORAGE_CLASS_UNKNOWN, [], LRU_CLASS, 0,
           [], [], 0)
  }

  function FirstSet(): ReplicaSet {
    ReplicaSet(1, 1, 1, 0, 0, 0, UNDER_REPLICATED, 0, [], 0)
  }

  lemma OfKindGood(kind: nat, digest: Digest, creator: bytes)
    requires kind < 256 && |digest| == 32 && |creator| <= 32
    ensures Good(ObjectData(OfKind(kind, digest, creator)), OBJECT)
  {
    hide Good;
    ModestGroup(ObjectData(OfKind(kind, digest, creator)).fields, OBJECT.fields);
  }

  lemma FirstSetGood()
    ensures Good(ReplicaSetData(FirstSet()), REPLICA_SET)
  {
    hide Good;
    ModestGroup(ReplicaSetData(FirstSet()).fields, REPLICA_SET.fields);
  }

  /** One object of an unknown kind makes the whole file unreadable. */
  lemma UnknownKind(kind: nat, digest: Digest, creator: bytes)
    requires 12 <= kind < 256 && |digest| == 32 && |creator| <= 32
    ensures var s := Small([OfKind(kind, digest, creator)], [FirstSet()], []);
      Serialized(s).Ok? && Deserialized(Serialized(s).value).Err?
  {
    hide Typed, Encodable, Encode, Take, File, Deserialized, ObjectData, ReplicaSetData, SnapshotData;
    var o := OfKind(kind, digest, creator);
    OfKindGood(kind, digest, creator);
    FirstSetGood();
    SmallSnapshot([o], [FirstSet()], []);
    KindRefused(Small([o], [FirstSet()], []), o);
  }
}
