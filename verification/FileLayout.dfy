/** src/persist.cpp: the bytes of every record and of the whole file, field after field in the order they are written.
    Layout and Records say how values are written and read back; this module says which bytes they are. */
module FileLayout {
  import opened Bytes
  import opened Status
  import opened Model
  import opened Layout
  import opened Records
  import opened CompatMap
  import opened Snapshots
  import C = Crc32
  import S = Sha256

  function Joined(parts: seq<bytes>): bytes {
    if parts == [] then [] else parts[0] + Joined(parts[1..])
  }

  /** A count and then the items. */
  function Counted<T>(xs: seq<T>, one: T -> bytes): bytes {
    Le(|xs|, 4) + Joined(Each(xs, one))
  }

  /** Two's complement. */
  function TimeBytes(v: I64): bytes {
    Le(if v < 0 then v + TWO_64 else v, 8)
  }

  function BoolByte(b: bool): bytes {
    if b then [1] else [0]
  }

  function EightBytes(n: nat): bytes {
    Le(n, 8)
  }

  function OneByte(n: nat): bytes {
    Le(n, 1)
  }

  function AuthorityParts(a: Authority): seq<bytes> {
    [Le(a.epoch, 8), Le(a.boot, 8), Le(a.worker, 8), Le(a.generation, 8), Le(a.origin, 1)]
  }

  function AuthorityBytes(a: Authority): bytes {
    Joined(AuthorityParts(a))
  }

  function PairParts(e: KeyValue): seq<bytes> {
    [Blob(e.0), Blob(e.1)]
  }

  function PairBytes(e: KeyValue): bytes {
    Joined(PairParts(e))
  }

  function ObjectParts(o: Object): seq<bytes> {
    [Le(o.id, 8), Le(o.generation, 8), Le(o.kind, 1), Le(o.logicalSize, 8), Blob(o.digest), Le(o.owner, 8),
     Le(o.provenance.origin, 1), Le(o.provenance.worker, 8), Le(o.provenance.boot, 8), Le(o.provenance.generation, 8),
     Blob(o.provenance.creator), Le(o.minReplicas, 4), Le(o.restorePriority, 1), Le(o.preferred, 1), Blob(o.nodeHint),
     Le(o.retention, 1), Le(o.policyGeneration, 8),
     Counted(o.dependencies, EightBytes), Counted(o.compatibility, PairBytes), TimeBytes(o.createdAt)]
  }

  function ObjectBytes(o: Object): bytes {
    Joined(ObjectParts(o))
  }

  function ChunkParts(c: Chunk): seq<bytes> {
    [Le(c.id, 8), Le(c.generation, 8), Le(c.offset, 8), Le(c.logicalLength, 8), Le(c.physicalLength, 8),
     Blob(c.digest), Le(c.blob, 8), Le(c.provenance, 1)]
  }

  function ChunkBytes(c: Chunk): bytes {
    Joined(ChunkParts(c))
  }

  function ManifestParts(m: Manifest): seq<bytes> {
    [Le(m.id, 8), Le(m.generation, 8), Le(m.obj, 8), Le(m.objectGeneration, 8), Le(m.total, 8), Blob(m.digest),
     Counted(m.chunks, ChunkBytes)]
  }

  function ManifestBytes(m: Manifest): bytes {
    Joined(ManifestParts(m))
  }

  function PlacementParts(p: Placement): seq<bytes> {
    [Le(p.id, 8), Le(p.obj, 8), Le(p.objectGeneration, 8), Le(p.replica, 8), Le(p.replicaGeneration, 8), Le(p.backend, 8),
     Le(p.tier, 8), Le(p.volume, 8), Blob(p.key), Le(p.manifest, 8), Le(p.logicalSize, 8), Le(p.physicalSize, 8),
     Blob(p.digest), Le(p.durabilityReplicas, 4), Blob(p.locality), Le(p.lifecycle, 1), Le(p.freshness, 1),
     Le(p.authorityGeneration, 8), Le(p.provenance, 1), Le(p.writerWorker, 8), Le(p.writerBoot, 8),
     Le(p.placementGeneration, 8), TimeBytes(p.createdAt), TimeBytes(p.availableAt)]
  }

  function PlacementBytes(p: Placement): bytes {
    Joined(PlacementParts(p))
  }

  function ReplicaParts(r: Replica): seq<bytes> {
    [Le(r.id, 8), Le(r.generation, 8), Le(r.backend, 8), Le(r.node, 8), Blob(r.domain), Le(r.logicalSize, 8),
     Le(r.physicalSize, 8), Le(r.state, 1), Le(r.placementGeneration, 8), BoolByte(r.authoritative)]
  }

  function ReplicaBytes(r: Replica): bytes {
    Joined(ReplicaParts(r))
  }

  function ReplicaSetParts(rs: ReplicaSet): seq<bytes> {
    [Le(rs.obj, 8), Le(rs.generation, 8), Le(rs.required, 4), Le(rs.actual, 4), Le(rs.distinctDomains, 4),
     Le(rs.authoritative, 4), Le(rs.state, 1), Le(rs.authorityGeneration, 8), Counted(rs.replicas, ReplicaBytes),
     TimeBytes(rs.updatedAt)]
  }

  function ReplicaSetBytes(rs: ReplicaSet): bytes {
    Joined(ReplicaSetParts(rs))
  }

  function BackendParts(b: Backend): seq<bytes> {
    [Le(b.id, 8), Le(b.tier, 8), Le(b.node, 8), Blob(b.name), Le(b.generation, 8),
     Le(b.capacity.total, 8), Le(b.capacity.free, 8), Le(b.capacity.reserved, 8), Le(b.capacity.committed, 8),
     Le(b.capacity.reclaimable, 8), BoolByte(b.capacity.unknown), Counted(b.capabilities, OneByte),
     Le(b.health, 1), Le(b.freshness, 1), Le(b.provenance, 1), TimeBytes(b.registeredAt)]
  }

  function BackendBytes(b: Backend): bytes {
    Joined(BackendParts(b))
  }

  function TransferParts(t: Transfer): seq<bytes> {
    [Le(t.id, 8), Le(t.kind, 1), Le(t.obj, 8), Le(t.source, 8), Le(t.target, 8), Le(t.bytes, 8), Le(t.state, 1),
     TimeBytes(t.finishedAt)]
  }

  function TransferBytes(t: Transfer): bytes {
    Joined(TransferParts(t))
  }

  /** The format's version comes first; the counters follow without a count. */
  function PayloadParts(s: Snapshot): seq<bytes> {
    [[1], Le(s.epoch, 8), AuthorityBytes(s.authority), Le(s.policyGeneration, 8), TimeBytes(s.savedAt),
     Joined(Each(s.accounting, EightBytes)),
     Counted(s.objects, ObjectBytes), Counted(s.manifests, ManifestBytes), Counted(s.placements, PlacementBytes),
     Counted(s.replicaSets, ReplicaSetBytes), Counted(s.backends, BackendBytes), Counted(s.transfers, TransferBytes),
     Counted(s.authorities, AuthorityBytes)]
  }

  function PayloadBytes(s: Snapshot): bytes {
    Joined(PayloadParts(s))
  }

  /** The letters MBFS, the version, the payload's length, checksum and digest, the payload. */
  function FileBytes(payload: bytes): bytes {
    [0x4D, 0x42, 0x46, 0x53] + [1] + Le(|payload|, 4) + C.WordBytes(C.Crc(payload)) + S.Hash(payload) + payload
  }

  // ----- What is written -----

  /** The fields of a group follow one another. */
  lemma {:induction false} GroupJoined(ds: seq<Datum>, fs: seq<Format>, parts: seq<bytes>)
    requires |ds| == |fs| == |parts| && forall i :: 0 <= i < |fs| ==> parts[i] == Encode(ds[i], fs[i])
    ensures EncodeAll(ds, fs) == Joined(parts)
    decreases |fs|
  {
    hide Encode;
    if fs != [] {
      GroupJoined(ds[1..], fs[1..], parts[1..]);
    }
  }

  lemma {:induction false} ItemsJoined(ds: seq<Datum>, f: Format, parts: seq<bytes>)
    requires |ds| == |parts| && forall i :: 0 <= i < |ds| ==> parts[i] == Encode(ds[i], f)
    ensures EncodeItems(ds, f) == Joined(parts)
    decreases |ds|
  {
    hide Encode;
    if ds != [] {
      ItemsJoined(ds[1..], f, parts[1..]);
    }
  }

  lemma ListJoined<T>(xs: seq<T>, data: T -> Datum, f: Format, most: nat, one: T -> bytes)
    requires forall x <- xs :: Encode(data(x), f) == one(x)
    ensures Encode(L(Each(xs, data)), List(f, most)) == Counted(xs, one)
  {
    ItemsJoined(Each(xs, data), f, Each(xs, one));
  }

  lemma TwosComplement(v: I64)
    ensures Unsigned(v) == if v < 0 then v + TWO_64 else v
  {}

  lemma TimeField(v: I64)
    ensures Encode(N(Unsigned(v)), U64_FIELD) == TimeBytes(v)
  {
    hide Le, Unsigned;
    TwosComplement(v);
  }

  lemma FlagField(b: bool)
    ensures Encode(Flag(b), Num(1, 2)) == BoolByte(b)
  {
    hide ToByte;
    LowByte(0, 0);
    LowByte(1, 1);
  }

  lemma AuthorityWritten(a: Authority)
    ensures Encode(AuthorityData(a), AUTHORITY) == AuthorityBytes(a)
  {
    hide Le, EncodeAll, Joined;
    GroupJoined(AuthorityData(a).fields, AUTHORITY.fields, AuthorityParts(a));
  }

  lemma NumbersWritten(ns: seq<nat>, most: nat)
    ensures Encode(L(Each(ns, Number)), List(U64_FIELD, most)) == Counted(ns, EightBytes)
    ensures forall limit :: Encode(L(Each(ns, Number)), List(Num(1, limit), most)) == Counted(ns, OneByte)
  {
    hide Le, EncodeItems, Joined, Each;
    ListJoined(ns, Number, U64_FIELD, most, EightBytes);
    forall limit
      ensures Encode(L(Each(ns, Number)), List(Num(1, limit), most)) == Counted(ns, OneByte)
    {
      ListJoined(ns, Number, Num(1, limit), most, OneByte);
    }
  }

  lemma PairWritten(e: KeyValue)
    ensures Encode(PairData(e), Group([Text, Text])) == PairBytes(e)
  {
    hide Blob, EncodeAll, Joined;
    GroupJoined([T(e.0), T(e.1)], [Text, Text], PairParts(e));
  }

  lemma ObjectWritten(o: Object)
    ensures Encode(ObjectData(o), OBJECT) == ObjectBytes(o)
  {
    hide Le, Blob, EncodeAll, EncodeItems, Joined, Each, Counted, Unsigned, TimeBytes, PairData, PairBytes;
    NumbersWritten(o.dependencies, MAX_RECORDS);
    forall e | e in o.compatibility
      ensures Encode(PairData(e), Group([Text, Text])) == PairBytes(e)
    {
      PairWritten(e);
    }
    ListJoined(o.compatibility, PairData, Group([Text, Text]), MAX_RECORDS, PairBytes);
    TimeField(o.createdAt);
    GroupJoined(ObjectData(o).fields, OBJECT.fields, ObjectParts(o));
  }

  lemma ChunkWritten(c: Chunk)
    ensures Encode(ChunkData(c), CHUNK) == ChunkBytes(c)
  {
    hide Le, Blob, EncodeAll, Joined;
    GroupJoined(ChunkData(c).fields, CHUNK.fields, ChunkParts(c));
  }

  lemma ManifestWritten(m: Manifest)
    ensures Encode(ManifestData(m), MANIFEST) == ManifestBytes(m)
  {
    hide Le, Blob, EncodeAll, EncodeItems, Joined, Each, Counted, ChunkData, ChunkBytes;
    forall c | c in m.chunks
      ensures Encode(ChunkData(c), CHUNK) == ChunkBytes(c)
    {
      ChunkWritten(c);
    }
    ListJoined(m.chunks, ChunkData, CHUNK, MAX_RECORDS, ChunkBytes);
    GroupJoined(ManifestData(m).fields, MANIFEST.fields, ManifestParts(m));
  }

  lemma PlacementWritten(p: Placement)
    ensures Encode(PlacementData(p), PLACEMENT) == PlacementBytes(p)
  {
    hide Le, Blob, EncodeAll, Joined, Unsigned, TimeBytes;
    TimeField(p.createdAt);
    TimeField(p.availableAt);
    GroupJoined(PlacementData(p).fields, PLACEMENT.fields, PlacementParts(p));
  }

  lemma ReplicaWritten(r: Replica)
    ensures Encode(ReplicaData(r), REPLICA) == ReplicaBytes(r)
  {
    hide Le, Blob, EncodeAll, Joined, Flag, BoolByte;
    FlagField(r.authoritative);
    GroupJoined(ReplicaData(r).fields, REPLICA.fields, ReplicaParts(r));
  }

  lemma ReplicaSetWritten(rs: ReplicaSet)
    ensures Encode(ReplicaSetData(rs), REPLICA_SET) == ReplicaSetBytes(rs)
  {
    hide Le, Blob, EncodeAll, EncodeItems, Joined, Each, Counted, Unsigned, TimeBytes, ReplicaData, ReplicaBytes;
    forall r | r in rs.replicas
      ensures Encode(ReplicaData(r), REPLICA) == ReplicaBytes(r)
    {
      ReplicaWritten(r);
    }
    ListJoined(rs.replicas, ReplicaData, REPLICA, MAX_RECORDS, ReplicaBytes);
    TimeField(rs.updatedAt);
    GroupJoined(ReplicaSetData(rs).fields, REPLICA_SET.fields, ReplicaSetParts(rs));
  }

  lemma BackendWritten(b: Backend)
    ensures Encode(BackendData(b), BACKEND) == BackendBytes(b)
  {
    hide Le, Blob, EncodeAll, EncodeItems, Joined, Each, Counted, Unsigned, TimeBytes, Flag, BoolByte;
    FlagField(b.capacity.unknown);
    NumbersWritten(b.capabilities, 16);
    TimeField(b.registeredAt);
    GroupJoined(BackendData(b).fields, BACKEND.fields, BackendParts(b));
  }

  lemma TransferWritten(t: Transfer)
    ensures Encode(TransferData(t), TRANSFER) == TransferBytes(t)
  {
    hide Le, EncodeAll, Joined, Unsigned, TimeBytes;
    TimeField(t.finishedAt);
    GroupJoined(TransferData(t).fields, TRANSFER.fields, TransferParts(t));
  }

  lemma CountersWritten(ns: seq<nat>)
    requires |ns| == 21
    ensures Encode(G(Each(ns, Number)), COUNTERS) == Joined(Each(ns, EightBytes))
  {
    hide Le, EncodeAll, Joined;
    assert forall i :: 0 <= i < 21 ==> COUNTERS.fields[i] == U64_FIELD;
    GroupJoined(Each(ns, Number), COUNTERS.fields, Each(ns, EightBytes));
  }

  lemma ListsWritten(s: Snapshot)
    ensures Encode(L(Each(s.objects, ObjectData)), List(OBJECT, MAX_RECORDS)) == Counted(s.objects, ObjectBytes)
    ensures Encode(L(Each(s.manifests, ManifestData)), List(MANIFEST, MAX_RECORDS)) == Counted(s.manifests, ManifestBytes)
    ensures Encode(L(Each(s.placements, PlacementData)), List(PLACEMENT, MAX_RECORDS)) == Counted(s.placements, PlacementBytes)
    ensures Encode(L(Each(s.replicaSets, ReplicaSetData)), List(REPLICA_SET, MAX_RECORDS)) == Counted(s.replicaSets, ReplicaSetBytes)
    ensures Encode(L(Each(s.backends, BackendData)), List(BACKEND, MAX_RECORDS)) == Counted(s.backends, BackendBytes)
    ensures Encode(L(Each(s.transfers, TransferData)), List(TRANSFER, MAX_RECORDS)) == Counted(s.transfers, TransferBytes)
    ensures Encode(L(Each(s.authorities, AuthorityData)), List(AUTHORITY, MAX_RECORDS)) == Counted(s.authorities, AuthorityBytes)
  {
    hide Encode, Each, Counted, ObjectData, ObjectBytes, ManifestData, ManifestBytes, PlacementData, PlacementBytes,
      ReplicaSetData, ReplicaSetBytes, BackendData, BackendBytes, TransferData, TransferBytes, AuthorityData, AuthorityBytes;
    forall x: Object ensures Encode(ObjectData(x), OBJECT) == ObjectBytes(x) { ObjectWritten(x); }
    forall x: Manifest ensures Encode(ManifestData(x), MANIFEST) == ManifestBytes(x) { ManifestWritten(x); }
    forall x: Placement ensures Encode(PlacementData(x), PLACEMENT) == PlacementBytes(x) { PlacementWritten(x); }
    forall x: ReplicaSet ensures Encode(ReplicaSetData(x), REPLICA_SET) == ReplicaSetBytes(x) { ReplicaSetWritten(x); }
    forall x: Backend ensures Encode(BackendData(x), BACKEND) == BackendBytes(x) { BackendWritten(x); }
    forall x: Transfer ensures Encode(TransferData(x), TRANSFER) == TransferBytes(x) { TransferWritten(x); }
    forall x: Authority ensures Encode(AuthorityData(x), AUTHORITY) == AuthorityBytes(x) { AuthorityWritten(x); }
    ListJoined(s.objects, ObjectData, OBJECT, MAX_RECORDS, ObjectBytes);
    ListJoined(s.manifests, ManifestData, MANIFEST, MAX_RECORDS, ManifestBytes);
    ListJoined(s.placements, PlacementData, PLACEMENT, MAX_RECORDS, PlacementBytes);
    ListJoined(s.replicaSets, ReplicaSetData, REPLICA_SET, MAX_RECORDS, ReplicaSetBytes);
    ListJoined(s.backends, BackendData, BACKEND, MAX_RECORDS, BackendBytes);
    ListJoined(s.transfers, TransferData, TRANSFER, MAX_RECORDS, TransferBytes);
    ListJoined(s.authorities, AuthorityData, AUTHORITY, MAX_RECORDS, AuthorityBytes);
  }

  /** The sections of the payload, in order. */
  lemma PayloadWritten(s: Snapshot)
    requires |s.accounting| == 21
    ensures Payload(s) == PayloadBytes(s)
  {
    hide Le, EncodeAll, EncodeItems, Joined, Each, Counted, Unsigned, TimeBytes, AuthorityData, AuthorityBytes, ObjectData, ObjectBytes,
      ManifestData, ManifestBytes, PlacementData, PlacementBytes, ReplicaSetData, ReplicaSetBytes, BackendData, BackendBytes,
      TransferData, TransferBytes;
    VersionByte();
    AuthorityWritten(s.authority);
    TimeField(s.savedAt);
    CountersWritten(s.accounting);
    ListsWritten(s);
    GroupJoined(SnapshotData(s).fields, SNAPSHOT.fields, PayloadParts(s));
  }

  lemma VersionByte()
    ensures Le(VERSION, 1) == [1]
  {
    hide Le;
    LowByte(1, 1);
  }

  lemma MagicBytes()
    ensures Le(MAGIC, 4) == [0x4D, 0x42, 0x46, 0x53]
  {
    hide Le;
    LowByte(0x5346_424D, 0x4D);
    LowByte(0x53_4642, 0x42);
    LowByte(0x5346, 0x46);
    LowByte(0x53, 0x53);
  }

  /** The whole file. */
  lemma FileWritten(payload: bytes)
    ensures File(payload) == FileBytes(payload)
  {
    hide Le, C.WordBytes, C.Crc, S.Hash;
    VersionByte();
    MagicBytes();
  }
}
