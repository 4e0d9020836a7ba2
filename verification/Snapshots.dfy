/** src/persist.cpp: the metadata file.
    magic(4) | version(1) | payload length(4) | crc(4) | SHA-256 of the payload(32) | payload, little-endian. */
module Snapshots {
  import opened Bytes
  import opened Status
  import opened Words
  import opened Model
  import opened Layout
  import opened Records
  import opened CompatMap
  import C = Crc32
  import S = Sha256

  const MAGIC: nat := 0x5346_424D
  const VERSION: nat := 1

  const COUNTERS: Format := Group([
    U64_FIELD, U64_FIELD, U64_FIELD, U64_FIELD, U64_FIELD, U64_FIELD, U64_FIELD,
    U64_FIELD, U64_FIELD, U64_FIELD, U64_FIELD, U64_FIELD, U64_FIELD, U64_FIELD,
    U64_FIELD, U64_FIELD, U64_FIELD, U64_FIELD, U64_FIELD, U64_FIELD, U64_FIELD])

  const SNAPSHOT: Format := Group([
    BYTE_FIELD, U64_FIELD, AUTHORITY, U64_FIELD, U64_FIELD, COUNTERS,
    List(OBJECT, MAX_RECORDS), List(MANIFEST, MAX_RECORDS), List(PLACEMENT, MAX_RECORDS),
    List(REPLICA_SET, MAX_RECORDS), List(BACKEND, MAX_RECORDS), List(TRANSFER, MAX_RECORDS), List(AUTHORITY, MAX_RECORDS)])

  function SnapshotData(s: Snapshot): Datum {
    G([N(VERSION), N(s.epoch), AuthorityData(s.authority), N(s.policyGeneration), N(Unsigned(s.savedAt)),
       G(Each(s.accounting, Number)),
       L(Each(s.objects, ObjectData)), L(Each(s.manifests, ManifestData)), L(Each(s.placements, PlacementData)),
       L(Each(s.replicaSets, ReplicaSetData)), L(Each(s.backends, BackendData)), L(Each(s.transfers, TransferData)),
       L(Each(s.authorities, AuthorityData))])
  }

  function CountersOf(d: Datum): seq<nat> {
    if d.G? then Each(d.fields, NumberOf) else []
  }

  function SnapshotOf(d: Datum): Snapshot {
    Snapshot(Int(d, 1), AuthorityOf(Field(d, 2)), Int(d, 3), Signed(Long(d, 4)), CountersOf(Field(d, 5)),
             Each(Items(d, 6), ObjectOf), Each(Items(d, 7), ManifestOf), Each(Items(d, 8), PlacementOf),
             Each(Items(d, 9), ReplicaSetOf), Each(Items(d, 10), BackendOf), Each(Items(d, 11), TransferOf),
             Each(Items(d, 12), AuthorityOf))
  }

  // ----- Writing -----

  function Payload(s: Snapshot): bytes {
    Encode(SnapshotData(s), SNAPSHOT)
  }

  /** The length field holds the low 32 bits. */
  function Head(payload: bytes): bytes {
    Le(MAGIC, 4) + Le(VERSION, 1) + Le(|payload|, 4) + C.WordBytes(C.Crc(payload))
  }

  function File(payload: bytes): bytes {
    Head(payload) + S.Hash(payload) + payload
  }

  function Serialized(s: Snapshot): Result<bytes> {
    if Encodable(SnapshotData(s)) then Ok(File(Payload(s))) else Err(Internal)
  }

  // ----- Reading -----

  datatype Fields = Fields(magic: nat, version: nat, length: nat, crc: bytes)

  function TakeHead(data: bytes): Parsed<Fields> {
    var (magic, r1) :- TakeLe(data, 4);
    var (version, r2) :- TakeLe(r1, 1);
    var (length, r3) :- TakeLe(r2, 4);
    var (crc, r4) :- TakeBytes(r3, 4);
    Good(Fields(magic, version, length, crc), r4)
  }

  ghost predicate Distinct(ids: seq<nat>) {
    forall i, j :: 0 <= i < j < |ids| ==> ids[i] != ids[j]
  }

  function ObjectId(o: Object): nat { o.id }
  function ManifestId(m: Manifest): nat { m.id }
  function PlacementId(p: Placement): nat { p.id }
  function ReplicaId(p: Placement): nat { p.replica }

  ghost predicate UniqueIds(s: Snapshot) {
    && Distinct(Each(s.objects, ObjectId)) && Distinct(Each(s.manifests, ManifestId))
    && Distinct(Each(s.placements, PlacementId)) && Distinct(Each(s.placements, ReplicaId))
  }

  ghost predicate KeysDistinct(d: Datum) {
    forall x <- Items(d, 6) :: Entries(PairsOf(x)).Some?
  }

  ghost function Checked(d: Datum, rest: bytes): Result<Snapshot> {
    if Int(d, 0) != VERSION || !KeysDistinct(d) then Err(Malformed)
    else if rest != [] then Err(TrailingGarbage)
    else if !UniqueIds(SnapshotOf(d)) then Err(DuplicateIdentity)
    else Ok(SnapshotOf(d))
  }

  ghost function Decoded(payload: bytes): Result<Snapshot> {
    match Take(payload, SNAPSHOT)
    case Bad => Err(Malformed)
    case Good(d, rest) => Checked(d, rest)
  }

  ghost function AfterHead(head: Fields, rest: bytes): Result<Snapshot> {
    if head.magic != MAGIC then Err(Malformed)
    else if head.version != VERSION then Err(Malformed)
    else if head.length > MAX_RECORDS * 1024 then Err(Overflow)
    else if |rest| != head.length + 32 then Err(TrailingGarbage)
    else if C.WordBytes(C.Crc(rest[32..])) != head.crc then Err(Corrupted)
    else if S.Hash(rest[32..]) != rest[..32] then Err(IntegrityMismatch)
    else Decoded(rest[32..])
  }

  ghost function Deserialized(data: bytes): Result<Snapshot> {
    match TakeHead(data)
    case Bad => Err(Truncated)
    case Good(head, rest) => AfterHead(head, rest)
  }

  // ----- Records -----

  /** Every compatibility map is a map: its entries come in key order. */
  ghost predicate MapsOrdered(s: Snapshot) {
    forall o <- s.objects :: Ordered(o.compatibility)
  }

  lemma ObjectsBack(os: seq<Object>)
    requires forall o <- os :: Ordered(o.compatibility)
    ensures Each(Each(os, ObjectData), ObjectOf) == os
    ensures forall x <- Each(os, ObjectData) :: Entries(PairsOf(x)).Some?
  {
    hide ObjectData, ObjectOf, PairsOf, Entries, Ordered;
    forall o | o in os
      ensures ObjectOf(ObjectData(o)) == o && Entries(PairsOf(ObjectData(o))).Some?
    {
      ObjectBack(o);
    }
    EachBack(os, ObjectData, ObjectOf);
  }

  lemma ListsBack(s: Snapshot)
    ensures Each(Each(s.manifests, ManifestData), ManifestOf) == s.manifests
    ensures Each(Each(s.placements, PlacementData), PlacementOf) == s.placements
    ensures Each(Each(s.replicaSets, ReplicaSetData), ReplicaSetOf) == s.replicaSets
    ensures Each(Each(s.backends, BackendData), BackendOf) == s.backends
    ensures Each(Each(s.transfers, TransferData), TransferOf) == s.transfers
    ensures Each(Each(s.authorities, AuthorityData), AuthorityOf) == s.authorities
    ensures Each(Each(s.accounting, Number), NumberOf) == s.accounting
  {
    hide ManifestData, ManifestOf, PlacementData, PlacementOf, ReplicaSetData, ReplicaSetOf, BackendData, BackendOf,
      TransferData, TransferOf, AuthorityData, AuthorityOf;
    forall x: Manifest ensures ManifestOf(ManifestData(x)) == x { ManifestBack(x); }
    forall x: Placement ensures PlacementOf(PlacementData(x)) == x { PlacementBack(x); }
    forall x: ReplicaSet ensures ReplicaSetOf(ReplicaSetData(x)) == x { ReplicaSetBack(x); }
    forall x: Backend ensures BackendOf(BackendData(x)) == x { BackendBack(x); }
    forall x: Transfer ensures TransferOf(TransferData(x)) == x { TransferBack(x); }
    forall x: Authority ensures AuthorityOf(AuthorityData(x)) == x { AuthorityBack(x); }
    EachBack(s.manifests, ManifestData, ManifestOf);
    EachBack(s.placements, PlacementData, PlacementOf);
    EachBack(s.replicaSets, ReplicaSetData, ReplicaSetOf);
    EachBack(s.backends, BackendData, BackendOf);
    EachBack(s.transfers, TransferData, TransferOf);
    EachBack(s.authorities, AuthorityData, AuthorityOf);
    EachBack(s.accounting, Number, NumberOf);
  }

  lemma SnapshotBack(s: Snapshot)
    requires MapsOrdered(s)
    ensures SnapshotOf(SnapshotData(s)) == s && KeysDistinct(SnapshotData(s)) && Int(SnapshotData(s), 0) == VERSION
  {
    hide Each, ObjectData, ObjectOf, PairsOf, Entries, Ordered, ManifestData, ManifestOf, PlacementData, PlacementOf,
      ReplicaSetData, ReplicaSetOf, BackendData, BackendOf, TransferData, TransferOf, AuthorityData, AuthorityOf,
      Signed, Unsigned, Number, NumberOf;
    SignedRoundTrip();
    ObjectsBack(s.objects);
    ListsBack(s);
    AuthorityBack(s.authority);
  }

  // ----- The header -----

  lemma TakeHeadOf(magic: nat, version: nat, length: nat, crc: bytes, rest: bytes)
    requires magic < TWO_32 && version < 256 && length < TWO_32 && |crc| == 4
    ensures TakeHead(Le(magic, 4) + Le(version, 1) + Le(length, 4) + crc + rest)
         == Good(Fields(magic, version, length, crc), rest)
  {
    hide Le, TakeLe, Radix;
    RadixValues();
    var r3 := crc + rest;
    var r2 := Le(length, 4) + r3;
    var r1 := Le(version, 1) + r2;
    assert Le(magic, 4) + r1 == Le(magic, 4) + Le(version, 1) + Le(length, 4) + crc + rest;
    TakeLeOfLe(magic, 4, r1);
    TakeLeOfLe(version, 1, r2);
    TakeLeOfLe(length, 4, r3);
    assert r3[..4] == crc && r3[4..] == rest;
  }

  lemma HeadOfTaken(data: bytes)
    requires TakeHead(data).Good?
    ensures var t := TakeHead(data);
      |t.value.crc| == 4 && t.value.length < TWO_32
      && data == Le(t.value.magic, 4) + Le(t.value.version, 1) + Le(t.value.length, 4) + t.value.crc + t.rest
  {
    hide Le, TakeLe, Radix;
    RadixValues();
    var p1 := TakeLe(data, 4);
    LeOfTakeLe(data, 4);
    var p2 := TakeLe(p1.rest, 1);
    LeOfTakeLe(p1.rest, 1);
    var p3 := TakeLe(p2.rest, 4);
    LeOfTakeLe(p2.rest, 4);
    assert p3.rest == p3.rest[..4] + p3.rest[4..];
  }

  /** The length field of any file is read as the payload's length modulo 2^32. */
  lemma HeadOfFile(payload: bytes)
    ensures TakeHead(File(payload)).Good?
    ensures var t := TakeHead(File(payload));
      && t.rest == S.Hash(payload) + payload
      && t.value.magic == MAGIC && t.value.version == VERSION && t.value.crc == C.WordBytes(C.Crc(payload))
      && t.value.length < TWO_32 && (t.value.length == |payload| <==> |payload| < TWO_32)
  {
    hide Le, TakeLe, UnLe, Radix, C.WordBytes, C.Crc, S.Hash;
    RadixValues();
    var n := UnLe(Le(|payload|, 4));
    UnLeBound(Le(|payload|, 4));
    LeRoundTrip(|payload|, 4);
    UnLeRoundTrip(Le(|payload|, 4));
    TakeHeadOf(MAGIC, VERSION, n, C.WordBytes(C.Crc(payload)), S.Hash(payload) + payload);
    assert File(payload)
        == Le(MAGIC, 4) + Le(VERSION, 1) + Le(n, 4) + C.WordBytes(C.Crc(payload)) + (S.Hash(payload) + payload);
  }

  /** A file is read back as its payload, as long as the length fits its field. */
  lemma FilePayload(payload: bytes)
    ensures Deserialized(File(payload)) == if |payload| < TWO_32 then Decoded(payload) else Err(TrailingGarbage)
  {
    hide TakeHead, C.WordBytes, C.Crc, S.Hash, Decoded, File;
    HeadOfFile(payload);
    S.HashLength(payload);
    var rest := S.Hash(payload) + payload;
    assert rest[32..] == payload && rest[..32] == S.Hash(payload);
  }

  /** The answer to a head, by the first of its fields that is wrong. */
  lemma HeadAnswers(magic: nat, version: nat, length: nat, crc: bytes, rest: bytes)
    requires magic < TWO_32 && version < 256 && length < TWO_32 && |crc| == 4
    ensures var answer := Deserialized(Le(magic, 4) + Le(version, 1) + Le(length, 4) + crc + rest);
      && (magic != 0x5346_424D || version != 1 ==> answer == Err(Malformed))
      && (magic == 0x5346_424D && version == 1 ==>
            && (|rest| != length + 32 ==> answer == Err(TrailingGarbage))
            && (|rest| == length + 32 ==>
                  var intact := C.WordBytes(C.Crc(rest[32..])) == crc;
                  (!intact ==> answer == Err(Corrupted))
                  && (intact && S.Hash(rest[32..]) != rest[..32] ==> answer == Err(IntegrityMismatch))))
  {
    hide Le, TakeHead, C.WordBytes, C.Crc, S.Hash, Decoded;
    TakeHeadOf(magic, version, length, crc, rest);
  }

  /** A file cut off inside its head is Truncated; cut off later it is refused as TrailingGarbage, as one with bytes added is. */
  lemma CutOrExtended(payload: bytes, n: nat, more: bytes)
    requires |payload| < TWO_32
    ensures n < 13 ==> Deserialized(File(payload)[..n]) == Err(Truncated)
    ensures 13 <= n < |File(payload)| ==> Deserialized(File(payload)[..n]) == Err(TrailingGarbage)
    ensures more != [] ==> Deserialized(File(payload) + more) == Err(TrailingGarbage)
  {
    hide Le, Head, TakeHead, C.WordBytes, C.Crc, S.Hash, AfterHead;
    S.HashLength(payload);
    HeadLength(payload);
    var rest := S.Hash(payload) + payload;
    assert File(payload) == Head(payload) + rest;
    if n < 13 {
      ShortHead(File(payload)[..n]);
    } else if n < |File(payload)| {
      assert File(payload)[..n] == Head(payload) + rest[..n - 13];
      WrongLength(payload, rest[..n - 13]);
    }
    if more != [] {
      assert File(payload) + more == Head(payload) + (rest + more);
      WrongLength(payload, rest + more);
    }
  }

  lemma ShortHead(data: bytes)
    requires |data| < 13
    ensures TakeHead(data).Bad?
  {
    hide UnLe;
  }

  lemma WrongLength(payload: bytes, rest: bytes)
    requires |payload| < TWO_32 && |rest| != |payload| + 32
    ensures Deserialized(Head(payload) + rest) == Err(TrailingGarbage)
  {
    hide Le, C.WordBytes, C.Crc, S.Hash, Decoded, TakeHead;
    HeadAnswers(MAGIC, VERSION, |payload|, C.WordBytes(C.Crc(payload)), rest);
  }

  // ----- Round trip -----

  lemma SensibleFields()
    ensures Sensible(U64_FIELD) && Sensible(U32_FIELD) && Sensible(BYTE_FIELD) && Sensible(Text) && Sensible(Digest32)
    ensures forall limit :: limit <= 256 ==> Sensible(Num(1, limit))
  {
    RadixValues();
  }

  lemma SensibleGroup(fs: seq<Format>)
    requires forall x <- fs :: Sensible(x)
    ensures Sensible(Group(fs))
  {}

  lemma SensibleList(item: Format, most: nat)
    requires Sensible(item) && most <= MAX_RECORDS
    ensures Sensible(List(item, most))
  {}

  lemma SensibleSmall()
    ensures Sensible(AUTHORITY) && Sensible(TRANSFER) && Sensible(COUNTERS)
    ensures Sensible(List(CHUNK, MAX_RECORDS)) && Sensible(List(REPLICA, MAX_RECORDS))
  {
    hide Sensible;
    SensibleFields();
    SensibleGroup(AUTHORITY.fields);
    SensibleGroup(TRANSFER.fields);
    SensibleGroup(COUNTERS.fields);
    SensibleGroup(CHUNK.fields);
    SensibleList(CHUNK, MAX_RECORDS);
    SensibleGroup(REPLICA.fields);
    SensibleList(REPLICA, MAX_RECORDS);
  }

  lemma SensibleObject()
    ensures Sensible(OBJECT)
  {
    hide Sensible;
    SensibleFields();
    SensibleGroup([Text, Text]);
    SensibleList(Group([Text, Text]), MAX_RECORDS);
    SensibleList(U64_FIELD, MAX_RECORDS);
    SensibleGroup(OBJECT.fields);
  }

  lemma SensibleManifest()
    ensures Sensible(MANIFEST) && Sensible(REPLICA_SET)
  {
    hide Sensible;
    SensibleFields();
    SensibleSmall();
    SensibleGroup(MANIFEST.fields);
    SensibleGroup(REPLICA_SET.fields);
  }

  lemma SensiblePlacement()
    ensures Sensible(PLACEMENT)
  {
    hide Sensible;
    SensibleFields();
    SensibleGroup(PLACEMENT.fields);
  }

  lemma SensibleBackend()
    ensures Sensible(BACKEND)
  {
    hide Sensible;
    SensibleFields();
    SensibleList(Num(1, 11), 16);
    SensibleGroup(BACKEND.fields);
  }

  lemma SensibleSnapshot()
    ensures Sensible(SNAPSHOT)
  {
    hide Sensible;
    SensibleFields();
    SensibleSmall();
    SensibleObject();
    SensibleManifest();
    SensiblePlacement();
    SensibleBackend();
    SensibleList(OBJECT, MAX_RECORDS);
    SensibleList(MANIFEST, MAX_RECORDS);
    SensibleList(PLACEMENT, MAX_RECORDS);
    SensibleList(REPLICA_SET, MAX_RECORDS);
    SensibleList(BACKEND, MAX_RECORDS);
    SensibleList(TRANSFER, MAX_RECORDS);
    SensibleList(AUTHORITY, MAX_RECORDS);
    SensibleGroup(SNAPSHOT.fields);
  }

  /** What a snapshot must satisfy to survive: strings and lists within the caps, enumerations among those the
      decoder knows, at most 16 capabilities a backend, no id twice, and a payload below 4 GiB. */
  ghost predicate Portable(s: Snapshot) {
    && Encodable(SnapshotData(s)) && Decodable(SnapshotData(s), SNAPSHOT)
    && UniqueIds(s) && |Payload(s)| < TWO_32
  }

  /** A snapshot whose fields have their types is written and read back as itself exactly when it is portable. */
  lemma RoundTripIff(s: Snapshot)
    requires Typed(SnapshotData(s), SNAPSHOT) && MapsOrdered(s)
    ensures (Serialized(s).Ok? && Deserialized(Serialized(s).value) == Ok(s)) <==> Portable(s)
  {
    hide SnapshotData, SnapshotOf, Typed, Encodable, Decodable, Encode, Take, File, Deserialized, UniqueIds, KeysDistinct;
    if Encodable(SnapshotData(s)) {
      var pl := Payload(s);
      FilePayload(pl);
      TakeOfEncode(SnapshotData(s), SNAPSHOT, []);
      assert pl + [] == pl;
      SnapshotBack(s);
    }
  }

  /** A file that is accepted at all holds the snapshot it was written from. */
  lemma AcceptedIsSaved(s: Snapshot)
    requires Typed(SnapshotData(s), SNAPSHOT) && MapsOrdered(s)
    requires Serialized(s).Ok? && Deserialized(Serialized(s).value).Ok?
    ensures Deserialized(Serialized(s).value) == Ok(s)
  {
    hide SnapshotData, SnapshotOf, Typed, Encodable, Decodable, Encode, Take, File, Deserialized, UniqueIds, KeysDistinct;
    var pl := Payload(s);
    FilePayload(pl);
    TakeOfEncode(SnapshotData(s), SNAPSHOT, []);
    assert pl + [] == pl;
    SnapshotBack(s);
  }

  // ----- The canonical form -----

  lemma ListBack<V>(d: Datum, item: Format, f: V -> Datum, g: Datum -> V)
    requires Within(d, List(item, MAX_RECORDS)) && forall x :: Within(x, item) ==> f(g(x)) == x
    ensures d.L? && L(Each(Each(d.items, g), f)) == d
  {
    hide Within;
    ListItems(d, item, MAX_RECORDS);
    DataBack(d.items, f, g);
  }

  lemma PlainListsBack(d: Datum)
    requires Within(d, SNAPSHOT)
    ensures d.G? && |d.fields| == 13
    ensures L(Each(Each(Items(d, 7), ManifestOf), ManifestData)) == d.fields[7]
    ensures L(Each(Each(Items(d, 8), PlacementOf), PlacementData)) == d.fields[8]
    ensures L(Each(Each(Items(d, 9), ReplicaSetOf), ReplicaSetData)) == d.fields[9]
    ensures L(Each(Each(Items(d, 10), BackendOf), BackendData)) == d.fields[10]
    ensures L(Each(Each(Items(d, 11), TransferOf), TransferData)) == d.fields[11]
    ensures L(Each(Each(Items(d, 12), AuthorityOf), AuthorityData)) == d.fields[12]
  {
    hide Within, Each, ManifestData, ManifestOf, PlacementData, PlacementOf, ReplicaSetData, ReplicaSetOf, BackendData, BackendOf,
      TransferData, TransferOf, AuthorityData, AuthorityOf;
    GroupFields(d, SNAPSHOT.fields);
    forall x | Within(x, MANIFEST) ensures ManifestData(ManifestOf(x)) == x { ManifestDataBack(x); }
    forall x | Within(x, PLACEMENT) ensures PlacementData(PlacementOf(x)) == x { PlacementDataBack(x); }
    forall x | Within(x, REPLICA_SET) ensures ReplicaSetData(ReplicaSetOf(x)) == x { ReplicaSetDataBack(x); }
    forall x | Within(x, BACKEND) ensures BackendData(BackendOf(x)) == x { BackendDataBack(x); }
    forall x | Within(x, TRANSFER) ensures TransferData(TransferOf(x)) == x { TransferDataBack(x); }
    forall x | Within(x, AUTHORITY) ensures AuthorityData(AuthorityOf(x)) == x { AuthorityDataBack(x); }
    ListBack(d.fields[7], MANIFEST, ManifestData, ManifestOf);
    ListBack(d.fields[8], PLACEMENT, PlacementData, PlacementOf);
    ListBack(d.fields[9], REPLICA_SET, ReplicaSetData, ReplicaSetOf);
    ListBack(d.fields[10], BACKEND, BackendData, BackendOf);
    ListBack(d.fields[11], TRANSFER, TransferData, TransferOf);
    ListBack(d.fields[12], AUTHORITY, AuthorityData, AuthorityOf);
  }

  lemma CountersBack(d: Datum)
    requires Within(d, COUNTERS)
    ensures G(Each(CountersOf(d), Number)) == d
  {
    hide Within;
    Shapes(d, COUNTERS.fields);
    forall x | x in d.fields
      ensures Number(NumberOf(x)) == x
    {
      var i :| 0 <= i < |d.fields| && d.fields[i] == x;
      assert COUNTERS.fields[i] == U64_FIELD;
    }
    DataBack(d.fields, Number, NumberOf);
  }

  /** Only the object list can come back changed. */
  lemma FieldsBack(d: Datum)
    requires Within(d, SNAPSHOT) && Int(d, 0) == VERSION
    ensures d.G? && |d.fields| == 13 && d.fields[6].L?
    ensures SnapshotData(SnapshotOf(d)) == G(d.fields[6 := L(Each(Each(d.fields[6].items, ObjectOf), ObjectData))])
  {
    hide Within, Each, ManifestData, ManifestOf, PlacementData, PlacementOf, ReplicaSetData, ReplicaSetOf, BackendData, BackendOf,
      TransferData, TransferOf, AuthorityData, AuthorityOf, ObjectData, ObjectOf, Signed, Unsigned, CountersOf;
    SignedRoundTrip();
    Shapes(d, SNAPSHOT.fields);
    GroupFields(d, SNAPSHOT.fields);
    PlainListsBack(d);
    CountersBack(d.fields[5]);
    AuthorityDataBack(d.fields[2]);
    var e := SnapshotData(SnapshotOf(d));
    assert e.fields == d.fields[6 := e.fields[6]];
  }

  /** The compatibility entries of every object came in key order. */
  ghost predicate StoredInOrder(d: Datum) {
    forall x <- Items(d, 6) :: Ordered(PairsOf(x))
  }

  lemma DataBackIff(d: Datum)
    requires Within(d, SNAPSHOT) && Int(d, 0) == VERSION && KeysDistinct(d)
    ensures SnapshotData(SnapshotOf(d)) == d <==> StoredInOrder(d)
  {
    hide Within, SnapshotData, SnapshotOf, ObjectData, ObjectOf, Ordered, PairsOf, Entries;
    FieldsBack(d);
    GroupFields(d, SNAPSHOT.fields);
    ListItems(d.fields[6], OBJECT, MAX_RECORDS);
    var os := d.fields[6].items;
    forall x | x in os
      ensures ObjectData(ObjectOf(x)) == x <==> Ordered(PairsOf(x))
    {
      ObjectDataBack(x);
    }
    if StoredInOrder(d) {
      DataBack(os, ObjectData, ObjectOf);
      assert d.fields[6 := L(os)] == d.fields;
    } else {
      var x :| x in os && !Ordered(PairsOf(x));
      var i :| 0 <= i < |os| && os[i] == x;
      assert Each(Each(os, ObjectOf), ObjectData)[i] != os[i];
    }
  }

  /** What re-serialising writes has its types. */
  lemma SnapshotTyped(d: Datum)
    requires Within(d, SNAPSHOT) && Int(d, 0) == VERSION
    ensures Typed(SnapshotData(SnapshotOf(d)), SNAPSHOT)
  {
    hide Typed, Decodable, SnapshotData, SnapshotOf, ObjectData, ObjectOf;
    FieldsBack(d);
    GroupFields(d, SNAPSHOT.fields);
    ListItems(d.fields[6], OBJECT, MAX_RECORDS);
    var os := Each(Each(d.fields[6].items, ObjectOf), ObjectData);
    forall x | x in os
      ensures Typed(x, OBJECT)
    {
      var i :| 0 <= i < |os| && os[i] == x;
      ObjectTyped(d.fields[6].items[i]);
    }
    TypedItems(os, OBJECT);
    TypedUpdate(d, SNAPSHOT.fields, 6, L(os));
  }

  lemma TypedItems(items: seq<Datum>, item: Format)
    requires forall x <- items :: Typed(x, item)
    ensures Typed(L(items), List(item, MAX_RECORDS))
  {}

  /** The field values of an accepted file. */
  ghost function Stored(data: bytes): Datum
    requires Deserialized(data).Ok?
  {
    Take(TakeHead(data).rest[32..], SNAPSHOT).value
  }

  lemma AcceptedFile(data: bytes)
    requires Deserialized(data).Ok?
    ensures var d := Stored(data);
      && Within(d, SNAPSHOT) && Encodable(d) && Int(d, 0) == VERSION && KeysDistinct(d)
      && Deserialized(data) == Ok(SnapshotOf(d)) && data == File(Encode(d, SNAPSHOT))
      && Take(Encode(d, SNAPSHOT), SNAPSHOT) == Good(d, [])
  {
    hide TakeHead, Take, Typed, Decodable, Encode, Le, C.WordBytes, C.Crc, S.Hash, UniqueIds, SnapshotOf, KeysDistinct;
    SensibleSnapshot();
    HeadOfTaken(data);
    var t := TakeHead(data);
    var payload := t.rest[32..];
    EncodeOfTake(payload, SNAPSHOT);
    var d := Take(payload, SNAPSHOT).value;
    assert Take(payload, SNAPSHOT).rest == [];
    assert Encode(d, SNAPSHOT) + [] == Encode(d, SNAPSHOT) == payload;
    assert t.rest == S.Hash(payload) + payload;
    SameLength(t.value.length, |payload|);
    assert data == Head(payload) + (S.Hash(payload) + payload);
    assert Head(payload) + (S.Hash(payload) + payload) == Head(payload) + S.Hash(payload) + payload;
  }

  lemma SameLength(a: nat, b: nat)
    requires a == b
    ensures Le(a, 4) == Le(b, 4)
  {}

  lemma FilesDiffer(a: bytes, b: bytes)
    requires File(a) == File(b)
    ensures a == b
  {
    hide Head;
    S.HashLength(a);
    S.HashLength(b);
    HeadLength(a);
    HeadLength(b);
    assert File(a)[45..] == a && File(b)[45..] == b by {
      hide S.Hash;
    }
  }

  lemma HeadLength(a: bytes)
    ensures |Head(a)| == 13
  {
    hide Le, C.WordBytes, C.Crc;
  }

  /** Re-serialising what an accepted file holds gives the same file exactly when its compatibility entries were
      stored in key order; nothing else can differ. */
  lemma CanonicalIff(data: bytes)
    requires Deserialized(data).Ok?
    ensures Serialized(Deserialized(data).value) == Ok(data) <==> StoredInOrder(Stored(data))
  {
    hide Deserialized, Stored, Typed, Decodable, Encodable, Encode, Take, File, SnapshotData, SnapshotOf, KeysDistinct, StoredInOrder;
    AcceptedFile(data);
    var d := Stored(data);
    var e := SnapshotData(SnapshotOf(d));
    DataBackIff(d);
    if Serialized(SnapshotOf(d)) == Ok(data) {
      FilesDiffer(Encode(e, SNAPSHOT), Encode(d, SNAPSHOT));
      SnapshotTyped(d);
      TakeOfEncode(e, SNAPSHOT, []);
      assert Encode(e, SNAPSHOT) + [] == Encode(e, SNAPSHOT);
    }
  }

  // ----- Damage -----

  /** A file with any one to four consecutive payload bytes replaced is rejected as corrupt. */
  lemma DamageDetected(pre: bytes, v: bytes, w: bytes, post: bytes)
    requires |pre + v + post| < TWO_32 && |v| == |w| <= 4 && v != w
    ensures var good := pre + v + post;
      Deserialized(Head(good) + S.Hash(good) + (pre + w + post)) == Err(Corrupted)
  {
    hide Head, TakeHead, S.Hash, C.WordBytes, C.Crc, Decoded;
    var good, bad := pre + v + post, pre + w + post;
    S.HashLength(good);
    assert Head(good) + S.Hash(good) + bad == Head(good) + (S.Hash(good) + bad);
    HeadOf(good, S.Hash(good) + bad);
    C.BurstChangesCrc(pre, v, w, post);
    C.WordRoundTrip(C.Crc(good));
    C.WordRoundTrip(C.Crc(bad));
    assert (S.Hash(good) + bad)[32..] == bad;
  }

  lemma HeadOf(payload: bytes, rest: bytes)
    requires |payload| < TWO_32
    ensures TakeHead(Head(payload) + rest)
         == Good(Fields(MAGIC, VERSION, |payload|, C.WordBytes(C.Crc(payload))), rest)
  {
    hide Le, TakeHead, C.WordBytes, C.Crc;
    TakeHeadOf(MAGIC, VERSION, |payload|, C.WordBytes(C.Crc(payload)), rest);
  }

  // ----- The codec as it runs -----

  method SerializeSnapshot(s: Snapshot) returns (r: Result<bytes>)
    requires Typed(SnapshotData(s), SNAPSHOT)
    ensures r == Serialized(s)
  {
    hide SnapshotData, Typed, Encodable, Encode, Le, C.WordBytes, C.Crc, S.Hash;
    var payload := new ByteWriter();
    var ok := Put(payload, SnapshotData(s), SNAPSHOT);
    if !ok { return Err(Internal); }
    var pl := payload.buf;
    assert [] + Payload(s) == Payload(s);
    var sem := S.HashPieces([pl]);
    JoinedOne(pl);
    var crc := C.Checksum(pl);
    var w := new ByteWriter();
    w.PutLe(MAGIC, 4);
    w.PutLe(VERSION, 1);
    w.PutLe(|pl|, 4);
    w.PutBytes(C.WordBytes(crc));
    w.PutBytes(sem);
    w.PutBytes(pl);
    assert w.buf == File(pl);
    r := Ok(w.buf);
  }

  lemma JoinedOne(pl: bytes)
    ensures S.Joined([pl]) == pl
  {
    assert S.Joined([pl]) == pl + S.Joined([]);
  }

  method ReadHead(reader: ByteReader) returns (ok: bool, head: Fields)
    requires reader.Valid()
    modifies reader`pos
    ensures reader.Valid()
    ensures ok == TakeHead(old(reader.Rest())).Good?
    ensures ok ==> TakeHead(old(reader.Rest())) == Good(head, reader.Rest())
  {
    hide TakeLe, TakeBytes;
    head := Fields(0, 0, 0, []);
    var magic, version, length, crc;
    ok, magic := reader.ReadLe(4);
    if !ok { return; }
    ok, version := reader.ReadLe(1);
    if !ok { return; }
    ok, length := reader.ReadLe(4);
    if !ok { return; }
    ok, crc := reader.ReadBytes(4);
    head := Fields(magic, version, length, crc);
  }

  method DeserializeSnapshot(data: bytes) returns (r: Result<Snapshot>)
    ensures r == Deserialized(data)
  {
    hide TakeHead, AfterHead;
    var reader := new ByteReader(data);
    var ok, head := ReadHead(reader);
    if !ok { return Err(Truncated); }
    r := ReadBody(head, reader.Rest());
  }

  /** The checks on the header, and the payload behind the digest. */
  method ReadBody(head: Fields, rest: bytes) returns (r: Result<Snapshot>)
    ensures r == AfterHead(head, rest)
  {
    hide Decoded, C.WordBytes, C.Crc, S.Hash;
    if head.magic != MAGIC { return Err(Malformed); }
    if head.version != VERSION { return Err(Malformed); }
    if head.length > MAX_RECORDS * 1024 { return Err(Overflow); }
    if |rest| != head.length + 32 { return Err(TrailingGarbage); }
    var digest, payload := rest[..32], rest[32..];
    var crc := C.Checksum(payload);
    if C.WordBytes(crc) != head.crc { return Err(Corrupted); }
    var sem := S.HashPieces([payload]);
    JoinedOne(payload);
    if sem != digest { return Err(IntegrityMismatch); }
    r := DecodePayload(payload);
  }

  method DecodePayload(payload: bytes) returns (r: Result<Snapshot>)
    ensures r == Decoded(payload)
  {
    hide Take, Checked;
    var reader := new ByteReader(payload);
    var ok, d := Read(reader, SNAPSHOT);
    if !ok { return Err(Malformed); }
    r := CheckDecoded(d, reader.Rest());
  }

  method CheckDecoded(d: Datum, rest: bytes) returns (r: Result<Snapshot>)
    ensures r == Checked(d, rest)
  {
    hide Items, Int, SnapshotOf, UniqueIds, Entries, PairsOf;
    if Int(d, 0) != VERSION { return Err(Malformed); }
    var objects := Items(d, 6);
    for i := 0 to |objects|
      invariant forall j :: 0 <= j < i ==> Entries(PairsOf(objects[j])).Some?
    {
      if Entries(PairsOf(objects[i])).None? { return Err(Malformed); }
    }
    assert KeysDistinct(d);
    if rest != [] { return Err(TrailingGarbage); }
    var unique := CheckIds(SnapshotOf(d));
    if !unique { return Err(DuplicateIdentity); }
    r := Ok(SnapshotOf(d));
  }

  method CheckIds(s: Snapshot) returns (unique: bool)
    ensures unique <==> UniqueIds(s)
  {
    hide Distinct, Each;
    unique := CheckUnique(Each(s.objects, ObjectId));
    if !unique { return; }
    unique := CheckUnique(Each(s.manifests, ManifestId));
    if !unique { return; }
    unique := CheckUnique(Each(s.placements, PlacementId));
    if !unique { return; }
    unique := CheckUnique(Each(s.placements, ReplicaId));
  }

  method CheckUnique(ids: seq<nat>) returns (unique: bool)
    ensures unique <==> Distinct(ids)
  {
    var seen: set<nat> := {};
    for i := 0 to |ids|
      invariant forall x :: x in seen <==> x in ids[..i]
      invariant Distinct(ids[..i])
    {
      if ids[i] in seen { return false; }
      seen := seen + {ids[i]};
      assert ids[..i + 1] == ids[..i] + [ids[i]];
    }
    assert ids[..|ids|] == ids;
    unique := true;
  }
}
