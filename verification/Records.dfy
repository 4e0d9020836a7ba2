/** src/persist.cpp: the layout of each record, and the record as the values of its fields. */
module Records {
  import opened Bytes
  import opened Model
  import opened Layout
  import opened CompatMap

  // ----- Layouts, in field order; the last number of a field is what its decoder allows -----

  const U64_FIELD: Format := Num(8, TWO_64)
  const U32_FIELD: Format := Num(4, TWO_32)
  const BYTE_FIELD: Format := Num(1, 256)

  const AUTHORITY: Format := Group([U64_FIELD, U64_FIELD, U64_FIELD, U64_FIELD, Num(1, 6)])

  const OBJECT: Format := Group([
    U64_FIELD, U64_FIELD, Num(1, 12), U64_FIELD, Digest32, U64_FIELD,
    BYTE_FIELD, U64_FIELD, U64_FIELD, U64_FIELD, Text,
    U32_FIELD, BYTE_FIELD, BYTE_FIELD, Text, BYTE_FIELD, U64_FIELD,
    List(U64_FIELD, MAX_RECORDS), List(Group([Text, Text]), MAX_RECORDS), U64_FIELD])

  const CHUNK: Format := Group([
    U64_FIELD, U64_FIELD, U64_FIELD, U64_FIELD, U64_FIELD, Digest32, U64_FIELD, Num(1, 6)])

  const MANIFEST: Format := Group([
    U64_FIELD, U64_FIELD, U64_FIELD, U64_FIELD, U64_FIELD, Digest32, List(CHUNK, MAX_RECORDS)])

  const PLACEMENT: Format := Group([
    U64_FIELD, U64_FIELD, U64_FIELD, U64_FIELD, U64_FIELD, U64_FIELD, U64_FIELD, U64_FIELD, Text, U64_FIELD,
    U64_FIELD, U64_FIELD, Digest32, U32_FIELD, Text, BYTE_FIELD, BYTE_FIELD, U64_FIELD, BYTE_FIELD,
    U64_FIELD, U64_FIELD, U64_FIELD, U64_FIELD, U64_FIELD])

  const REPLICA: Format := Group([
    U64_FIELD, U64_FIELD, U64_FIELD, U64_FIELD, Text, U64_FIELD, U64_FIELD, Num(1, 6), U64_FIELD, Num(1, 2)])

  const REPLICA_SET: Format := Group([
    U64_FIELD, U64_FIELD, U32_FIELD, U32_FIELD, U32_FIELD, U32_FIELD, Num(1, 6), U64_FIELD,
    List(REPLICA, MAX_RECORDS), U64_FIELD])

  /** The encoder writes up to 2^24 capabilities, the decoder takes 16. */
  const BACKEND: Format := Group([
    U64_FIELD, U64_FIELD, U64_FIELD, Text, U64_FIELD,
    U64_FIELD, U64_FIELD, U64_FIELD, U64_FIELD, U64_FIELD, Num(1, 2),
    List(Num(1, 11), 16), Num(1, 5), Num(1, 4), Num(1, 5), U64_FIELD])

  const TRANSFER: Format := Group([
    U64_FIELD, Num(1, 8), U64_FIELD, U64_FIELD, U64_FIELD, U64_FIELD, Num(1, 7), U64_FIELD])

  // ----- Field values -----

  /** int64_t as the uint64_t it is written as, and back. */
  function Unsigned(v: I64): U64 {
    v % TWO_64
  }

  function Signed(n: U64): I64 {
    if n < 0x8000_0000_0000_0000 then n else n - TWO_64
  }

  lemma SignedRoundTrip()
    ensures forall v: I64 :: Signed(Unsigned(v)) == v
    ensures forall n: U64 :: Unsigned(Signed(n)) == n
  {}

  function Flag(b: bool): Datum {
    N(if b then 1 else 0)
  }

  function Field(d: Datum, i: nat): Datum {
    if d.G? && i < |d.fields| then d.fields[i] else N(0)
  }

  function Int(d: Datum, i: nat): nat {
    if Field(d, i).N? then Field(d, i).n else 0
  }

  function Long(d: Datum, i: nat): U64 {
    if Int(d, i) < TWO_64 then Int(d, i) else 0
  }

  function Str(d: Datum, i: nat): bytes {
    if Field(d, i).T? then Field(d, i).s else []
  }

  function Items(d: Datum, i: nat): seq<Datum> {
    if Field(d, i).L? then Field(d, i).items else []
  }

  function Each<S, T>(xs: seq<S>, f: S -> T): (ys: seq<T>)
    ensures |ys| == |xs| && forall i :: 0 <= i < |xs| ==> ys[i] == f(xs[i])
  {
    seq(|xs|, i requires 0 <= i < |xs| => f(xs[i]))
  }

  // ----- Records as field values -----

  function AuthorityData(a: Authority): Datum {
    G([N(a.epoch), N(a.boot), N(a.worker), N(a.generation), N(a.origin)])
  }

  function AuthorityOf(d: Datum): Authority {
    Authority(Int(d, 0), Int(d, 1), Int(d, 2), Int(d, 3), Int(d, 4))
  }

  function PairData(e: KeyValue): Datum {
    G([T(e.0), T(e.1)])
  }

  function PairOf(d: Datum): KeyValue {
    (Str(d, 0), Str(d, 1))
  }

  function ObjectData(o: Object): Datum {
    G([N(o.id), N(o.generation), N(o.kind), N(o.logicalSize), T(o.digest), N(o.owner),
       N(o.provenance.origin), N(o.provenance.worker), N(o.provenance.boot), N(o.provenance.generation), T(o.provenance.creator),
       N(o.minReplicas), N(o.restorePriority), N(o.preferred), T(o.nodeHint), N(o.retention), N(o.policyGeneration),
       L(Each(o.dependencies, Number)), L(Each(o.compatibility, PairData)), N(Unsigned(o.createdAt))])
  }

  /** The compatibility entries in the order they were written. */
  function PairsOf(d: Datum): seq<KeyValue> {
    Each(Items(d, 18), PairOf)
  }

  function ObjectOf(d: Datum): Object {
    Object(Int(d, 0), Int(d, 1), Int(d, 2), Long(d, 3), Str(d, 4), Int(d, 5),
           Provenance(Int(d, 6), Int(d, 7), Int(d, 8), Int(d, 9), Str(d, 10)),
           Int(d, 11), Int(d, 12), Int(d, 13), Str(d, 14), Int(d, 15), Int(d, 16),
           Each(Items(d, 17), NumberOf),
           match Entries(PairsOf(d)) case Some(c) => c case None => [],
           Signed(Long(d, 19)))
  }

  function ChunkData(c: Chunk): Datum {
    G([N(c.id), N(c.generation), N(c.offset), N(c.logicalLength), N(c.physicalLength), T(c.digest), N(c.blob), N(c.provenance)])
  }

  function ChunkOf(d: Datum): Chunk {
    Chunk(Int(d, 0), Int(d, 1), Long(d, 2), Long(d, 3), Long(d, 4), Str(d, 5), Int(d, 6), Int(d, 7))
  }

  function ManifestData(m: Manifest): Datum {
    G([N(m.id), N(m.generation), N(m.obj), N(m.objectGeneration), N(m.total), T(m.digest), L(Each(m.chunks, ChunkData))])
  }

  function ManifestOf(d: Datum): Manifest {
    Manifest(Int(d, 0), Int(d, 1), Int(d, 2), Int(d, 3), Long(d, 4), Str(d, 5), Each(Items(d, 6), ChunkOf))
  }

  function PlacementData(p: Placement): Datum {
    G([N(p.id), N(p.obj), N(p.objectGeneration), N(p.replica), N(p.replicaGeneration), N(p.backend), N(p.tier), N(p.volume),
       T(p.key), N(p.manifest), N(p.logicalSize), N(p.physicalSize), T(p.digest), N(p.durabilityReplicas), T(p.locality),
       N(p.lifecycle), N(p.freshness), N(p.authorityGeneration), N(p.provenance), N(p.writerWorker), N(p.writerBoot),
       N(p.placementGeneration), N(Unsigned(p.createdAt)), N(Unsigned(p.availableAt))])
  }

  function PlacementOf(d: Datum): Placement {
    Placement(Int(d, 0), Int(d, 1), Int(d, 2), Int(d, 3), Int(d, 4), Int(d, 5), Int(d, 6), Int(d, 7),
              Str(d, 8), Int(d, 9), Long(d, 10), Long(d, 11), Str(d, 12), Int(d, 13), Str(d, 14),
              Int(d, 15), Int(d, 16), Int(d, 17), Int(d, 18), Int(d, 19), Int(d, 20), Int(d, 21),
              Signed(Long(d, 22)), Signed(Long(d, 23)))
  }

  function ReplicaData(r: Replica): Datum {
    G([N(r.id), N(r.generation), N(r.backend), N(r.node), T(r.domain), N(r.logicalSize), N(r.physicalSize), N(r.state),
       N(r.placementGeneration), Flag(r.authoritative)])
  }

  function ReplicaOf(d: Datum): Replica {
    Replica(Int(d, 0), Int(d, 1), Int(d, 2), Int(d, 3), Str(d, 4), Long(d, 5), Long(d, 6), Int(d, 7), Int(d, 8), Int(d, 9) == 1)
  }

  function ReplicaSetData(rs: ReplicaSet): Datum {
    G([N(rs.obj), N(rs.generation), N(rs.required), N(rs.actual), N(rs.distinctDomains), N(rs.authoritative), N(rs.state),
       N(rs.authorityGeneration), L(Each(rs.replicas, ReplicaData)), N(Unsigned(rs.updatedAt))])
  }

  function ReplicaSetOf(d: Datum): ReplicaSet {
    ReplicaSet(Int(d, 0), Int(d, 1), Int(d, 2), Int(d, 3), Int(d, 4), Int(d, 5), Int(d, 6), Int(d, 7),
               Each(Items(d, 8), ReplicaOf), Signed(Long(d, 9)))
  }

  function Number(n: nat): Datum {
    N(n)
  }

  function NumberOf(d: Datum): nat {
    if d.N? then d.n else 0
  }

  function BackendData(b: Backend): Datum {
    G([N(b.id), N(b.tier), N(b.node), T(b.name), N(b.generation), N(b.capacity.total), N(b.capacity.free),
       N(b.capacity.reserved), N(b.capacity.committed), N(b.capacity.reclaimable), Flag(b.capacity.unknown),
       L(Each(b.capabilities, Number)), N(b.health), N(b.freshness), N(b.provenance), N(Unsigned(b.registeredAt))])
  }

  function BackendOf(d: Datum): Backend {
    Backend(Int(d, 0), Int(d, 1), Int(d, 2), Str(d, 3), Int(d, 4),
            Capacity(Long(d, 5), Long(d, 6), Long(d, 7), Long(d, 8), Long(d, 9), Int(d, 10) == 1),
            Each(Items(d, 11), NumberOf), Int(d, 12), Int(d, 13), Int(d, 14), Signed(Long(d, 15)))
  }

  function TransferData(t: Transfer): Datum {
    G([N(t.id), N(t.kind), N(t.obj), N(t.source), N(t.target), N(t.bytes), N(t.state), N(Unsigned(t.finishedAt))])
  }

  function TransferOf(d: Datum): Transfer {
    Transfer(Int(d, 0), Int(d, 1), Int(d, 2), Int(d, 3), Int(d, 4), Int(d, 5), Int(d, 6), Signed(Long(d, 7)))
  }

  // ----- Records survive the way through field values -----

  lemma EachBack<S, T>(xs: seq<S>, f: S -> T, g: T -> S)
    requires forall x <- xs :: g(f(x)) == x
    ensures Each(Each(xs, f), g) == xs
  {}

  lemma AuthorityBack(a: Authority)
    ensures AuthorityOf(AuthorityData(a)) == a
  {}

  lemma ObjectBack(o: Object)
    requires Ordered(o.compatibility)
    ensures ObjectOf(ObjectData(o)) == o && PairsOf(ObjectData(o)) == o.compatibility
    ensures Entries(PairsOf(ObjectData(o))).Some?
  {
    hide Signed, Unsigned, Entries, Ordered;
    SignedRoundTrip();
    EachBack(o.dependencies, Number, NumberOf);
    EachBack(o.compatibility, PairData, PairOf);
    EntriesOfOrdered(o.compatibility);
  }

  lemma ManifestBack(m: Manifest)
    ensures ManifestOf(ManifestData(m)) == m
  {
    EachBack(m.chunks, ChunkData, ChunkOf);
  }

  lemma PlacementBack(p: Placement)
    ensures PlacementOf(PlacementData(p)) == p
  {
    hide Signed, Unsigned;
    SignedRoundTrip();
  }

  lemma ReplicaSetBack(rs: ReplicaSet)
    ensures ReplicaSetOf(ReplicaSetData(rs)) == rs
  {
    hide Signed, Unsigned;
    SignedRoundTrip();
    EachBack(rs.replicas, ReplicaData, ReplicaOf);
  }

  lemma BackendBack(b: Backend)
    ensures BackendOf(BackendData(b)) == b
  {
    hide Signed, Unsigned;
    SignedRoundTrip();
    EachBack(b.capabilities, Number, NumberOf);
  }

  lemma TransferBack(t: Transfer)
    ensures TransferOf(TransferData(t)) == t
  {
    hide Signed, Unsigned;
    SignedRoundTrip();
  }

  // ----- And field values the way through records -----

  /** A value within its layout's types and limits. */
  ghost predicate Within(d: Datum, f: Format) {
    Typed(d, f) && Decodable(d, f)
  }

  lemma {:induction false} WithinAll(ds: seq<Datum>, fs: seq<Format>)
    requires TypedAll(ds, fs) && DecodableAll(ds, fs)
    ensures |ds| == |fs| && forall i :: 0 <= i < |fs| ==> Within(ds[i], fs[i])
    decreases |fs|
  {
    hide Typed, Decodable;
    if fs != [] {
      WithinAll(ds[1..], fs[1..]);
      forall i | 0 <= i < |fs|
        ensures Within(ds[i], fs[i])
      {
        if i > 0 {
          assert ds[i] == ds[1..][i - 1] && fs[i] == fs[1..][i - 1];
        }
      }
    }
  }

  lemma GroupFields(d: Datum, fs: seq<Format>)
    requires Within(d, Group(fs))
    ensures d.G? && |d.fields| == |fs| && forall i :: 0 <= i < |fs| ==> Within(d.fields[i], fs[i])
  {
    WithinAll(d.fields, fs);
  }

  /** What a field's layout says about its value alone. */
  predicate Shape(d: Datum, f: Format) {
    match f
    case Num(_, limit) => d.N? && d.n < limit
    case Text => d.T?
    case Digest32 => d.T?
    case Group(_) => d.G?
    case List(_, _) => d.L?
  }

  lemma Shapes(d: Datum, fs: seq<Format>)
    requires Within(d, Group(fs))
    ensures d.G? && |d.fields| == |fs| && forall i :: 0 <= i < |fs| ==> Shape(d.fields[i], fs[i])
  {
    hide TypedAll, DecodableAll;
    GroupFields(d, fs);
    forall i | 0 <= i < |fs|
      ensures Shape(d.fields[i], fs[i])
    {
      assert Within(d.fields[i], fs[i]);
    }
  }

  lemma ListItems(d: Datum, item: Format, most: nat)
    requires Within(d, List(item, most))
    ensures d.L? && forall x <- d.items :: Within(x, item)
  {}

  lemma DataBack<S>(ds: seq<Datum>, f: S -> Datum, g: Datum -> S)
    requires forall d <- ds :: f(g(d)) == d
    ensures Each(Each(ds, g), f) == ds
  {}

  lemma AuthorityDataBack(d: Datum)
    requires Within(d, AUTHORITY)
    ensures AuthorityData(AuthorityOf(d)) == d
  {
    hide Within;
    Shapes(d, AUTHORITY.fields);
    assert d.fields == AuthorityData(AuthorityOf(d)).fields;
  }

  lemma ChunkDataBack(d: Datum)
    requires Within(d, CHUNK)
    ensures ChunkData(ChunkOf(d)) == d
  {
    hide Within;
    Shapes(d, CHUNK.fields);
    assert d.fields == ChunkData(ChunkOf(d)).fields;
  }

  lemma PlacementDataBack(d: Datum)
    requires Within(d, PLACEMENT)
    ensures PlacementData(PlacementOf(d)) == d
  {
    hide Within, PlacementData, PlacementOf;
    Shapes(d, PLACEMENT.fields);
    PlacementHeadBack(d);
    PlacementTailBack(d);
    var e := PlacementData(PlacementOf(d));
    assert d.fields == d.fields[..12] + d.fields[12..] && e.fields == e.fields[..12] + e.fields[12..];
  }

  lemma PlacementHeadBack(d: Datum)
    requires Within(d, PLACEMENT)
    ensures d.G? && |d.fields| == 24
    ensures var e := PlacementData(PlacementOf(d)); e.G? && |e.fields| == 24 && e.fields[..12] == d.fields[..12]
  {
    hide Within, Signed, Unsigned;
    Shapes(d, PLACEMENT.fields);
    var e := PlacementData(PlacementOf(d));
    assert forall i :: 0 <= i < 12 ==> e.fields[i] == d.fields[i];
  }

  lemma PlacementTailBack(d: Datum)
    requires Within(d, PLACEMENT)
    ensures d.G? && |d.fields| == 24
    ensures var e := PlacementData(PlacementOf(d)); e.G? && |e.fields| == 24 && e.fields[12..] == d.fields[12..]
  {
    hide Within, Signed, Unsigned;
    SignedRoundTrip();
    Shapes(d, PLACEMENT.fields);
    var e := PlacementData(PlacementOf(d));
    assert forall i :: 12 <= i < 24 ==> e.fields[i] == d.fields[i];
  }

  lemma ReplicaDataBack(d: Datum)
    requires Within(d, REPLICA)
    ensures ReplicaData(ReplicaOf(d)) == d
  {
    hide Within;
    Shapes(d, REPLICA.fields);
    assert d.fields == ReplicaData(ReplicaOf(d)).fields;
  }

  lemma TransferDataBack(d: Datum)
    requires Within(d, TRANSFER)
    ensures TransferData(TransferOf(d)) == d
  {
    hide Within, Signed, Unsigned;
    SignedRoundTrip();
    Shapes(d, TRANSFER.fields);
    assert d.fields == TransferData(TransferOf(d)).fields;
  }

  lemma ManifestDataBack(d: Datum)
    requires Within(d, MANIFEST)
    ensures ManifestData(ManifestOf(d)) == d
  {
    hide Within, ChunkData, ChunkOf;
    Shapes(d, MANIFEST.fields);
    GroupFields(d, MANIFEST.fields);
    var chunks := d.fields[6].items;
    ListItems(d.fields[6], CHUNK, MAX_RECORDS);
    forall x | x in chunks
      ensures ChunkData(ChunkOf(x)) == x
    {
      ChunkDataBack(x);
    }
    DataBack(chunks, ChunkData, ChunkOf);
    assert d.fields == ManifestData(ManifestOf(d)).fields;
  }

  lemma ReplicaSetDataBack(d: Datum)
    requires Within(d, REPLICA_SET)
    ensures ReplicaSetData(ReplicaSetOf(d)) == d
  {
    hide Within, ReplicaData, ReplicaOf, Signed, Unsigned;
    SignedRoundTrip();
    Shapes(d, REPLICA_SET.fields);
    GroupFields(d, REPLICA_SET.fields);
    var replicas := d.fields[8].items;
    ListItems(d.fields[8], REPLICA, MAX_RECORDS);
    forall x | x in replicas
      ensures ReplicaData(ReplicaOf(x)) == x
    {
      ReplicaDataBack(x);
    }
    DataBack(replicas, ReplicaData, ReplicaOf);
    assert d.fields == ReplicaSetData(ReplicaSetOf(d)).fields;
  }

  lemma NumbersBack(d: Datum, width: nat, limit: nat, most: nat)
    requires Within(d, List(Num(width, limit), most))
    ensures d.L? && Each(Each(d.items, NumberOf), Number) == d.items
  {
    hide Within;
    ListItems(d, Num(width, limit), most);
    forall x | x in d.items
      ensures Number(NumberOf(x)) == x
    {
      NumberItem(x, width, limit);
    }
    DataBack(d.items, Number, NumberOf);
  }

  lemma NumberItem(d: Datum, width: nat, limit: nat)
    requires Within(d, Num(width, limit))
    ensures d.N?
  {}

  lemma BackendDataBack(d: Datum)
    requires Within(d, BACKEND)
    ensures BackendData(BackendOf(d)) == d
  {
    hide Within, Signed, Unsigned;
    SignedRoundTrip();
    Shapes(d, BACKEND.fields);
    GroupFields(d, BACKEND.fields);
    NumbersBack(d.fields[11], 1, 11, 16);
    assert d.fields == BackendData(BackendOf(d)).fields;
  }

  lemma PairDataBack(d: Datum)
    requires Within(d, Group([Text, Text]))
    ensures PairData(PairOf(d)) == d
  {
    hide Within;
    Shapes(d, [Text, Text]);
    assert d.fields == PairData(PairOf(d)).fields;
  }

  lemma OrderedObjectDataBack(d: Datum)
    requires Within(d, OBJECT) && Ordered(PairsOf(d))
    ensures ObjectData(ObjectOf(d)) == d
  {
    hide Within, Signed, Unsigned, Entries, Ordered, PairData, PairOf;
    SignedRoundTrip();
    Shapes(d, OBJECT.fields);
    GroupFields(d, OBJECT.fields);
    NumbersBack(d.fields[17], 8, TWO_64, MAX_RECORDS);
    PairsDataBack(d);
    EntriesOfOrdered(PairsOf(d));
    assert d.fields == ObjectData(ObjectOf(d)).fields;
  }

  /** An object's field values are those of the object they make exactly when the compatibility entries came in
      key order. */
  lemma ObjectDataBack(d: Datum)
    requires Within(d, OBJECT) && Entries(PairsOf(d)).Some?
    ensures ObjectData(ObjectOf(d)) == d <==> Ordered(PairsOf(d))
  {
    hide Within, Signed, Unsigned, Entries, Ordered, PairData, PairOf;
    if Ordered(PairsOf(d)) {
      OrderedObjectDataBack(d);
    } else {
      PairsDataBack(d);
      EntriesMeans(PairsOf(d));
      assert ObjectData(ObjectOf(d)).fields[18] == L(Each(Entries(PairsOf(d)).value, PairData));
      PairsInjective(Entries(PairsOf(d)).value, PairsOf(d));
    }
  }

  lemma PairsDataBack(d: Datum)
    requires Within(d, OBJECT)
    ensures d.G? && |d.fields| == 20 && d.fields[18] == L(Each(PairsOf(d), PairData))
  {
    hide Within, PairData, PairOf;
    Shapes(d, OBJECT.fields);
    GroupFields(d, OBJECT.fields);
    var pairs := d.fields[18].items;
    ListItems(d.fields[18], Group([Text, Text]), MAX_RECORDS);
    forall x | x in pairs
      ensures PairData(PairOf(x)) == x
    {
      PairDataBack(x);
    }
    DataBack(pairs, PairData, PairOf);
  }

  lemma PairsInjective(a: seq<KeyValue>, b: seq<KeyValue>)
    ensures Each(a, PairData) == Each(b, PairData) ==> a == b
  {
    EachBack(a, PairData, PairOf);
    EachBack(b, PairData, PairOf);
  }

  // ----- Types are kept -----

  lemma {:induction false} TypedEach(ds: seq<Datum>, fs: seq<Format>)
    ensures TypedAll(ds, fs) <==> |ds| == |fs| && forall i :: 0 <= i < |fs| ==> Typed(ds[i], fs[i])
    decreases |fs|
  {
    hide Typed;
    if fs != [] && ds != [] {
      TypedEach(ds[1..], fs[1..]);
      assert ds == [ds[0]] + ds[1..] && fs == [fs[0]] + fs[1..];
    }
  }

  /** One field of a group may be exchanged for another of the same type. */
  lemma TypedUpdate(d: Datum, fs: seq<Format>, i: nat, x: Datum)
    requires Typed(d, Group(fs)) && i < |fs| && Typed(x, fs[i])
    ensures d.G? && i < |d.fields| && Typed(G(d.fields[i := x]), Group(fs))
  {
    hide TypedAll;
    TypedEach(d.fields, fs);
    TypedEach(d.fields[i := x], fs);
  }

  /** Sorting the compatibility entries leaves an object's field values typed. */
  lemma ObjectTyped(d: Datum)
    requires Within(d, OBJECT)
    ensures Typed(ObjectData(ObjectOf(d)), OBJECT)
  {
    hide Typed, Decodable, Signed, Unsigned, Entries, PairData, PairOf;
    SignedRoundTrip();
    Shapes(d, OBJECT.fields);
    GroupFields(d, OBJECT.fields);
    NumbersBack(d.fields[17], 8, TWO_64, MAX_RECORDS);
    var pairs := ObjectOf(d).compatibility;
    PairsTyped(pairs);
    TypedUpdate(d, OBJECT.fields, 18, L(Each(pairs, PairData)));
    assert ObjectData(ObjectOf(d)).fields == d.fields[18 := L(Each(pairs, PairData))];
  }

  lemma PairsTyped(pairs: seq<KeyValue>)
    ensures Typed(L(Each(pairs, PairData)), List(Group([Text, Text]), MAX_RECORDS))
  {
    forall x | x in Each(pairs, PairData)
      ensures Typed(x, Group([Text, Text]))
    {
      TypedEach(x.fields, [Text, Text]);
    }
  }
}
