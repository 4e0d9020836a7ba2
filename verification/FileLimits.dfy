/** src/persist.cpp: what a file must satisfy to be read back, record by record. */
module FileLimits {
  import opened Bytes
  import opened Status
  import opened Model
  import opened Layout
  import opened Records
  import opened CompatMap
  import opened Snapshots
  import opened FileLayout

  predicate Short(s: bytes) {
    |s| <= 0x10_0000
  }

  predicate Few<T>(xs: seq<T>) {
    |xs| <= 0x100_0000
  }

  predicate AuthorityFits(a: Authority) {
    a.origin <= 5
  }

  predicate PairFits(e: KeyValue) {
    Short(e.0) && Short(e.1)
  }

  predicate ObjectFits(o: Object) {
    && o.kind <= 11 && Short(o.provenance.creator) && Short(o.nodeHint)
    && Few(o.dependencies) && Few(o.compatibility) && forall e <- o.compatibility :: PairFits(e)
  }

  predicate ChunkFits(c: Chunk) {
    c.provenance <= 5
  }

  predicate ManifestFits(m: Manifest) {
    Few(m.chunks) && forall c <- m.chunks :: ChunkFits(c)
  }

  /** lifecycle, freshness and provenance are read as they come. */
  predicate PlacementFits(p: Placement) {
    Short(p.key) && Short(p.locality)
  }

  predicate ReplicaFits(r: Replica) {
    Short(r.domain) && r.state <= 5
  }

  predicate ReplicaSetFits(rs: ReplicaSet) {
    rs.state <= 5 && Few(rs.replicas) && forall r <- rs.replicas :: ReplicaFits(r)
  }

  predicate BackendFits(b: Backend) {
    && Short(b.name) && |b.capabilities| <= 16 && (forall c <- b.capabilities :: c <= 10)
    && b.health <= 4 && b.freshness <= 3 && b.provenance <= 4
  }

  predicate TransferFits(t: Transfer) {
    t.kind <= 7 && t.state <= 6
  }

  predicate SnapshotFits(s: Snapshot) {
    && AuthorityFits(s.authority)
    && Few(s.objects) && Few(s.manifests) && Few(s.placements) && Few(s.replicaSets) && Few(s.backends) && Few(s.transfers)
    && Few(s.authorities)
    && (forall x <- s.objects :: ObjectFits(x)) && (forall x <- s.manifests :: ManifestFits(x))
    && (forall x <- s.placements :: PlacementFits(x)) && (forall x <- s.replicaSets :: ReplicaSetFits(x))
    && (forall x <- s.backends :: BackendFits(x)) && (forall x <- s.transfers :: TransferFits(x))
    && (forall x <- s.authorities :: AuthorityFits(x))
  }

  // ----- Field by field -----

  lemma {:induction false} DecodableEach(ds: seq<Datum>, fs: seq<Format>)
    ensures DecodableAll(ds, fs) <==> |ds| == |fs| && forall i :: 0 <= i < |fs| ==> Decodable(ds[i], fs[i])
    decreases |fs|
  {
    hide Decodable;
    if fs != [] && ds != [] {
      DecodableEach(ds[1..], fs[1..]);
      assert ds == [ds[0]] + ds[1..] && fs == [fs[0]] + fs[1..];
    }
  }

  /** What the limit of a field says, unless it is a group or a list of its own. */
  predicate Limit(d: Datum, f: Format)
    requires !f.Group? && !f.List?
  {
    match f
    case Num(_, limit) => d.N? && d.n < limit
    case Text => d.T? && |d.s| <= 0x10_0000
    case Digest32 => d.T?
  }

  lemma Leaf(d: Datum, f: Format)
    requires !f.Group? && !f.List?
    ensures Decodable(d, f) <==> Limit(d, f)
  {}

  /** Full-width numbers and digests are never out of range. */
  lemma Wide(d: Datum, f: Format)
    requires Typed(d, f) && f in {U64_FIELD, U32_FIELD, BYTE_FIELD, Digest32}
    ensures Decodable(d, f)
  {
    RadixValues();
  }

  /** A record of typed fields is within the limits exactly when each of its fields is. */
  lemma Fields(d: Datum, f: Format)
    requires f.Group? && Typed(d, f)
    ensures d.G? && |d.fields| == |f.fields| && forall i :: 0 <= i < |f.fields| ==> Typed(d.fields[i], f.fields[i])
    ensures Decodable(d, f) <==> forall i :: 0 <= i < |f.fields| ==> Decodable(d.fields[i], f.fields[i])
    ensures forall i :: 0 <= i < |f.fields| && !f.fields[i].Group? && !f.fields[i].List? ==>
      (Decodable(d.fields[i], f.fields[i]) <==> Limit(d.fields[i], f.fields[i]))
    ensures forall i :: 0 <= i < |f.fields| && f.fields[i] in {U64_FIELD, U32_FIELD, BYTE_FIELD, Digest32} ==>
      Decodable(d.fields[i], f.fields[i])
  {
    hide TypedAll, DecodableAll, Limit;
    TypedEach(d.fields, f.fields);
    DecodableEach(d.fields, f.fields);
    hide Typed, Decodable;
    forall i | 0 <= i < |f.fields| && !f.fields[i].Group? && !f.fields[i].List?
      ensures Decodable(d.fields[i], f.fields[i]) <==> Limit(d.fields[i], f.fields[i])
    {
      Leaf(d.fields[i], f.fields[i]);
    }
    forall i | 0 <= i < |f.fields| && f.fields[i] in {U64_FIELD, U32_FIELD, BYTE_FIELD, Digest32}
      ensures Decodable(d.fields[i], f.fields[i])
    {
      Wide(d.fields[i], f.fields[i]);
    }
  }

  lemma AuthorityLimits(x: Authority)
    requires Typed(AuthorityData(x), AUTHORITY)
    ensures Decodable(AuthorityData(x), AUTHORITY) <==> AuthorityFits(x)
  {
    hide Typed, Decodable;
    Fields(AuthorityData(x), AUTHORITY);
    var fields := AuthorityData(x).fields;
    assert Limit(fields[4], AUTHORITY.fields[4]) <==> x.origin <= 5;
  }

  lemma PlacementLimits(x: Placement)
    requires Typed(PlacementData(x), PLACEMENT)
    ensures Decodable(PlacementData(x), PLACEMENT) <==> PlacementFits(x)
  {
    hide Typed, Decodable, Unsigned;
    Fields(PlacementData(x), PLACEMENT);
    var fields := PlacementData(x).fields;
    assert Limit(fields[8], PLACEMENT.fields[8]) <==> Short(x.key);
    assert Limit(fields[14], PLACEMENT.fields[14]) <==> Short(x.locality);
  }

  lemma ChunkLimits(x: Chunk)
    requires Typed(ChunkData(x), CHUNK)
    ensures Decodable(ChunkData(x), CHUNK) <==> ChunkFits(x)
  {
    hide Typed, Decodable;
    Fields(ChunkData(x), CHUNK);
    var fields := ChunkData(x).fields;
    assert Limit(fields[7], CHUNK.fields[7]) <==> x.provenance <= 5;
  }

  lemma ReplicaLimits(x: Replica)
    requires Typed(ReplicaData(x), REPLICA)
    ensures Decodable(ReplicaData(x), REPLICA) <==> ReplicaFits(x)
  {
    hide Typed, Decodable;
    Fields(ReplicaData(x), REPLICA);
    var fields := ReplicaData(x).fields;
    assert Limit(fields[4], REPLICA.fields[4]) <==> Short(x.domain);
    assert Limit(fields[7], REPLICA.fields[7]) <==> x.state <= 5;
    assert Limit(fields[9], REPLICA.fields[9]);
  }

  lemma TransferLimits(x: Transfer)
    requires Typed(TransferData(x), TRANSFER)
    ensures Decodable(TransferData(x), TRANSFER) <==> TransferFits(x)
  {
    hide Typed, Decodable, Unsigned;
    Fields(TransferData(x), TRANSFER);
    var fields := TransferData(x).fields;
    assert Limit(fields[1], TRANSFER.fields[1]) <==> x.kind <= 7;
    assert Limit(fields[6], TRANSFER.fields[6]) <==> x.state <= 6;
  }

  lemma ListLimits<T>(xs: seq<T>, data: T -> Datum, item: Format, most: nat, fits: T -> bool)
    requires Typed(L(Each(xs, data)), List(item, most))
    requires forall x <- xs :: Typed(data(x), item) ==> (Decodable(data(x), item) <==> fits(x))
    ensures Decodable(L(Each(xs, data)), List(item, most)) <==> |xs| <= most && forall x <- xs :: fits(x)
  {
    var ds := Each(xs, data);
    forall i | 0 <= i < |xs|
      ensures Decodable(ds[i], item) <==> fits(xs[i])
    {
      assert ds[i] in ds && xs[i] in xs;
    }
    assert (forall d <- ds :: Decodable(d, item)) <==> forall i :: 0 <= i < |ds| ==> Decodable(ds[i], item);
    assert (forall x <- xs :: fits(x)) <==> forall i :: 0 <= i < |xs| ==> fits(xs[i]);
  }

  lemma PairLimits(x: KeyValue)
    requires Typed(PairData(x), Group([Text, Text]))
    ensures Decodable(PairData(x), Group([Text, Text])) <==> PairFits(x)
  {
    hide Typed, Decodable;
    Fields(PairData(x), Group([Text, Text]));
    var fields := PairData(x).fields;
    assert Limit(fields[0], Text) <==> Short(x.0);
    assert Limit(fields[1], Text) <==> Short(x.1);
  }

  /** Numbers in a list are below its limit, or need only be few when they are of full width. */
  lemma NumberLimits(ns: seq<nat>, width: nat, limit: nat, most: nat)
    requires Typed(L(Each(ns, Number)), List(Num(width, limit), most))
    ensures Decodable(L(Each(ns, Number)), List(Num(width, limit), most)) <==> |ns| <= most && forall n <- ns :: n < limit
    ensures width == 8 ==> forall n <- ns :: n < TWO_64
  {
    RadixValues();
    var ds := Each(ns, Number);
    forall i | 0 <= i < |ns|
      ensures Typed(ds[i], Num(width, limit))
    {
      assert ds[i] in ds;
    }
    ListLimits(ns, Number, Num(width, limit), most, n => n < limit);
  }

  lemma ObjectLimits(x: Object)
    requires Typed(ObjectData(x), OBJECT)
    ensures Decodable(ObjectData(x), OBJECT) <==> ObjectFits(x)
  {
    hide Typed, Decodable, Unsigned, PairData, PairFits;
    Fields(ObjectData(x), OBJECT);
    var fields := ObjectData(x).fields;
    assert Typed(fields[17], OBJECT.fields[17]);
    NumberLimits(x.dependencies, 8, TWO_64, MAX_RECORDS);
    assert Decodable(fields[17], OBJECT.fields[17]) <==> Few(x.dependencies);
    forall e | e in x.compatibility && Typed(PairData(e), Group([Text, Text]))
      ensures Decodable(PairData(e), Group([Text, Text])) <==> PairFits(e)
    {
      PairLimits(e);
    }
    assert Typed(fields[18], OBJECT.fields[18]);
    ListLimits(x.compatibility, PairData, Group([Text, Text]), MAX_RECORDS, PairFits);
    assert Decodable(fields[18], OBJECT.fields[18]) <==> Few(x.compatibility) && forall e <- x.compatibility :: PairFits(e);
    assert Limit(fields[2], OBJECT.fields[2]) <==> x.kind <= 11;
    assert Limit(fields[10], OBJECT.fields[10]) <==> Short(x.provenance.creator);
    assert Limit(fields[14], OBJECT.fields[14]) <==> Short(x.nodeHint);
  }

  lemma ManifestLimits(x: Manifest)
    requires Typed(ManifestData(x), MANIFEST)
    ensures Decodable(ManifestData(x), MANIFEST) <==> ManifestFits(x)
  {
    hide Typed, Decodable, ChunkData, ChunkFits;
    Fields(ManifestData(x), MANIFEST);
    var fields := ManifestData(x).fields;
    forall c | c in x.chunks && Typed(ChunkData(c), CHUNK)
      ensures Decodable(ChunkData(c), CHUNK) <==> ChunkFits(c)
    {
      ChunkLimits(c);
    }
    assert Typed(fields[6], MANIFEST.fields[6]);
    ListLimits(x.chunks, ChunkData, CHUNK, MAX_RECORDS, ChunkFits);
    assert Decodable(fields[6], MANIFEST.fields[6]) <==> ManifestFits(x);
  }

  lemma ReplicaSetLimits(x: ReplicaSet)
    requires Typed(ReplicaSetData(x), REPLICA_SET)
    ensures Decodable(ReplicaSetData(x), REPLICA_SET) <==> ReplicaSetFits(x)
  {
    hide Typed, Decodable, Unsigned, ReplicaData, ReplicaFits;
    Fields(ReplicaSetData(x), REPLICA_SET);
    var fields := ReplicaSetData(x).fields;
    forall r | r in x.replicas && Typed(ReplicaData(r), REPLICA)
      ensures Decodable(ReplicaData(r), REPLICA) <==> ReplicaFits(r)
    {
      ReplicaLimits(r);
    }
    assert Typed(fields[8], REPLICA_SET.fields[8]);
    ListLimits(x.replicas, ReplicaData, REPLICA, MAX_RECORDS, ReplicaFits);
    assert Decodable(fields[8], REPLICA_SET.fields[8]) <==> Few(x.replicas) && forall r <- x.replicas :: ReplicaFits(r);
    assert Limit(fields[6], REPLICA_SET.fields[6]) <==> x.state <= 5;
  }

  lemma BackendLimits(x: Backend)
    requires Typed(BackendData(x), BACKEND)
    ensures Decodable(BackendData(x), BACKEND) <==> BackendFits(x)
  {
    hide Typed, Decodable, Unsigned;
    Fields(BackendData(x), BACKEND);
    var fields := BackendData(x).fields;
    assert Typed(fields[11], BACKEND.fields[11]);
    NumberLimits(x.capabilities, 1, 11, 16);
    assert Decodable(fields[11], BACKEND.fields[11]) <==> |x.capabilities| <= 16 && forall c <- x.capabilities :: c <= 10;
    assert Limit(fields[3], BACKEND.fields[3]) <==> Short(x.name);
    assert Limit(fields[10], BACKEND.fields[10]);
    assert Limit(fields[12], BACKEND.fields[12]) <==> x.health <= 4;
    assert Limit(fields[13], BACKEND.fields[13]) <==> x.freshness <= 3;
    assert Limit(fields[14], BACKEND.fields[14]) <==> x.provenance <= 4;
  }

  // ----- The whole file -----

  /** The limits of a layout are those of the records it is for. */
  ghost predicate SameLimits<T(!new)>(data: T -> Datum, f: Format, fits: T -> bool) {
    forall x :: Typed(data(x), f) ==> (Decodable(data(x), f) <==> fits(x))
  }

  lemma SectionLimits<T(!new)>(xs: seq<T>, data: T -> Datum, item: Format, fits: T -> bool)
    requires SameLimits(data, item, fits)
    requires Typed(L(Each(xs, data)), List(item, MAX_RECORDS))
    ensures Decodable(L(Each(xs, data)), List(item, MAX_RECORDS)) <==> Few(xs) && forall x <- xs :: fits(x)
  {
    hide Typed, Decodable;
    ListLimits(xs, data, item, MAX_RECORDS, fits);
  }

  lemma RecordLimits()
    ensures SameLimits(ObjectData, OBJECT, ObjectFits)
    ensures SameLimits(ManifestData, MANIFEST, ManifestFits)
    ensures SameLimits(PlacementData, PLACEMENT, PlacementFits)
    ensures SameLimits(ReplicaSetData, REPLICA_SET, ReplicaSetFits)
    ensures SameLimits(BackendData, BACKEND, BackendFits)
    ensures SameLimits(TransferData, TRANSFER, TransferFits)
    ensures SameLimits(AuthorityData, AUTHORITY, AuthorityFits)
  {
    hide Typed, Decodable,
      ObjectData, ObjectFits, ManifestData, ManifestFits, PlacementData, PlacementFits, ReplicaSetData, ReplicaSetFits,
      BackendData, BackendFits, TransferData, TransferFits, AuthorityData, AuthorityFits;
    forall x: Object | Typed(ObjectData(x), OBJECT)
      ensures Decodable(ObjectData(x), OBJECT) <==> ObjectFits(x)
    {
      ObjectLimits(x);
    }
    forall x: Manifest | Typed(ManifestData(x), MANIFEST)
      ensures Decodable(ManifestData(x), MANIFEST) <==> ManifestFits(x)
    {
      ManifestLimits(x);
    }
    forall x: Placement | Typed(PlacementData(x), PLACEMENT)
      ensures Decodable(PlacementData(x), PLACEMENT) <==> PlacementFits(x)
    {
      PlacementLimits(x);
    }
    forall x: ReplicaSet | Typed(ReplicaSetData(x), REPLICA_SET)
      ensures Decodable(ReplicaSetData(x), REPLICA_SET) <==> ReplicaSetFits(x)
    {
      ReplicaSetLimits(x);
    }
    forall x: Backend | Typed(BackendData(x), BACKEND)
      ensures Decodable(BackendData(x), BACKEND) <==> BackendFits(x)
    {
      BackendLimits(x);
    }
    forall x: Transfer | Typed(TransferData(x), TRANSFER)
      ensures Decodable(TransferData(x), TRANSFER) <==> TransferFits(x)
    {
      TransferLimits(x);
    }
    forall x: Authority | Typed(AuthorityData(x), AUTHORITY)
      ensures Decodable(AuthorityData(x), AUTHORITY) <==> AuthorityFits(x)
    {
      AuthorityLimits(x);
    }
  }

  lemma CounterLimits(ns: seq<nat>)
    requires Typed(G(Each(ns, Number)), COUNTERS)
    ensures |ns| == 21 && Decodable(G(Each(ns, Number)), COUNTERS)
  {
    hide Typed, Decodable;
    Fields(G(Each(ns, Number)), COUNTERS);
    forall i | 0 <= i < 21
      ensures COUNTERS.fields[i] == U64_FIELD
    {}
  }

  /** A snapshot of typed fields is within the decoder's limits exactly when it fits. */
  lemma SnapshotLimits(s: Snapshot)
    requires Typed(SnapshotData(s), SNAPSHOT)
    ensures |s.accounting| == 21 && (Decodable(SnapshotData(s), SNAPSHOT) <==> SnapshotFits(s))
  {
    hide Typed, Decodable, Each, Unsigned, Few, SameLimits,
      ObjectData, ObjectFits, ManifestData, ManifestFits, PlacementData, PlacementFits, ReplicaSetData, ReplicaSetFits,
      BackendData, BackendFits, TransferData, TransferFits, AuthorityData, AuthorityFits;
    Fields(SnapshotData(s), SNAPSHOT);
    RecordLimits();
    var fields, fs := SnapshotData(s).fields, SNAPSHOT.fields;
    assert Typed(fields[2], fs[2]) && Typed(fields[5], fs[5]);
    CounterLimits(s.accounting);
    AuthorityLimits(s.authority);
    assert Decodable(fields[2], fs[2]) <==> AuthorityFits(s.authority);
    assert Typed(fields[6], fs[6]);
    SectionLimits(s.objects, ObjectData, OBJECT, ObjectFits);
    assert Typed(fields[7], fs[7]);
    SectionLimits(s.manifests, ManifestData, MANIFEST, ManifestFits);
    assert Typed(fields[8], fs[8]);
    SectionLimits(s.placements, PlacementData, PLACEMENT, PlacementFits);
    assert Typed(fields[9], fs[9]);
    SectionLimits(s.replicaSets, ReplicaSetData, REPLICA_SET, ReplicaSetFits);
    assert Typed(fields[10], fs[10]);
    SectionLimits(s.backends, BackendData, BACKEND, BackendFits);
    assert Typed(fields[11], fs[11]);
    SectionLimits(s.transfers, TransferData, TRANSFER, TransferFits);
    assert Typed(fields[12], fs[12]);
    SectionLimits(s.authorities, AuthorityData, AUTHORITY, AuthorityFits);
  }

  /** What can be read can be written. */
  lemma {:induction false} ReadableWritable(d: Datum, f: Format)
    requires Typed(d, f) && Decodable(d, f) && Sensible(f)
    ensures Encodable(d)
    decreases f
  {
    match (d, f)
    case (N(_), Num(_, _)) =>
    case (T(_), Text) =>
    case (T(_), Digest32) =>
    case (G(ds), Group(fs)) =>
      Fields(d, f);
      forall i | 0 <= i < |fs|
        ensures Encodable(ds[i])
      {
        ReadableWritable(ds[i], fs[i]);
      }
    case (L(items), List(item, _)) =>
      forall x | x in items
        ensures Encodable(x)
      {
        ReadableWritable(x, item);
      }
  }

  /** The file of a snapshot, byte for byte, and when it is read back: every record fits, no id comes twice, and the
      payload is below 4 GiB. */
  lemma FileOfSnapshot(s: Snapshot)
    requires Typed(SnapshotData(s), SNAPSHOT) && MapsOrdered(s)
    ensures Serialized(s).Ok? ==> Serialized(s).value == FileBytes(PayloadBytes(s))
    ensures Serialized(s).Ok? && Deserialized(FileBytes(PayloadBytes(s))) == Ok(s) <==>
      SnapshotFits(s) && UniqueIds(s) && |PayloadBytes(s)| < TWO_32
  {
    hide SnapshotData, Typed, Encodable, Decodable, Sensible, Encode, File, FileBytes, PayloadBytes, Deserialized, UniqueIds,
      MapsOrdered, SnapshotFits;
    SnapshotLimits(s);
    PayloadWritten(s);
    FileWritten(Payload(s));
    RoundTripIff(s);
    SensibleSnapshot();
    if SnapshotFits(s) {
      ReadableWritable(SnapshotData(s), SNAPSHOT);
    }
  }
}
