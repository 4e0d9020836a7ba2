/** src/runtime.cpp: the storage runtime. Its operations are given as functions of the whole state, and the
    StorageFabric object below carries them out step by step. */
module Runtime {
  import opened Bytes
  import opened Status
  import opened Model
  import opened AuthorityOrder
  import opened Manifests
  import opened BlobStore
  import L = Ledger
  import G = Guards
  import P = Permutations

  datatype Tier = Tier(domain: bytes, locality: bytes)

  datatype Entry = Entry(obj: Object, replicaSet: ReplicaSet, placements: seq<Id>)

  /** The id counters that recovery does not restore. */
  datatype Counters = Counters(obj: Id, manifest: Id, replica: Id, placement: Id)

  datatype Fabric = Fabric(
    authority: Authority, policyGeneration: nat,
    stores: map<Id, Store>, tiers: map<Id, Tier>, descriptors: map<Id, Backend>,
    catalog: map<Id, Entry>, placements: map<Id, Placement>, manifests: map<Id, Manifest>,
    ledger: L.Ledger, blobs: Blobs, ids: Counters)

  datatype Options = Options(authority: Authority, required: nat, dedupe: bool, eagerVerify: bool, chunkSize: nat)

  function Max(a: nat, b: nat): nat {
    if a > b then a else b
  }

  // ----- define_object -----

  function DefinedObject(f: Fabric, h: Hash, kind: Enum, content: bytes, writer: Authority, minReplicas: nat,
                         priority: Enum): Object
    requires |content| < TWO_64
  {
    Object(f.ids.obj, 1, kind, |content|, h(content), 1,
           Provenance(ORIGIN_RUNNER, writer.worker, writer.boot, writer.generation, RunnerText()),
           minReplicas, priority, STORAGE_CLASS_UNKNOWN, [], LRU_CLASS, f.policyGeneration, [], [], 0)
  }

  /** A std::string literal. */
  function Text(s: string): bytes {
    if s == [] then [] else [ToByte(s[0] as nat % 256)] + Text(s[1..])
  }

  function RunnerText(): bytes {
    Text("runner")
  }

  function ManifestTag(): bytes {
    Text("SFB-MANIFEST-v1")
  }

  function PlacementPrefix(): bytes {
    Text("placements/placement-")
  }

  function DefineObject(f: Fabric, h: Hash, kind: Enum, size: nat, content: bytes, writer: Authority,
                        minReplicas: nat, priority: Enum): (Result<Object>, Fabric)
    requires |content| < TWO_64
  {
    if |content| != size then (Err(LengthMismatch), f)
    else if size == 0 then (Err(InvalidArgument), f)
    else
      var o := DefinedObject(f, h, kind, content, writer, minReplicas, priority);
      var g := f.(ids := f.ids.(obj := f.ids.obj + 1));
      var rs := ReplicaSet(o.id, 1, Max(minReplicas, 1), 0, 0, 0, UNDER_REPLICATED, 0, [], 0);
      if o.id in f.catalog then (Err(DuplicateIdentity), g)
      else (Ok(o), g.(catalog := g.catalog[o.id := Entry(o, rs, [])]))
  }

  // ----- publish_to -----

  /** The bytes compute_manifest_digest feeds to the hash. */
  function ManifestBytes(m: Manifest): bytes {
    Blob(ManifestTag()) + Le(m.obj, 8) + Le(m.objectGeneration, 8) + Le(m.total, 8) + ChunkBytes(m.chunks)
  }

  function ChunkBytes(cs: seq<Chunk>): bytes {
    if cs == [] then []
    else
      var c := cs[0];
      Le(c.id, 8) + Le(c.offset, 8) + Le(c.logicalLength, 8) + Le(c.physicalLength, 8) + c.digest + Le(c.blob, 8)
        + ChunkBytes(cs[1..])
  }

  function BuiltManifest(id: Id, h: Hash, obj: Object, chunks: seq<Chunk>): Manifest {
    var m := Manifest(id, 1, obj.id, obj.generation, obj.logicalSize, [], chunks);
    m.(digest := h(ManifestBytes(m)))
  }

  function Decimal(n: nat): bytes {
    (if n < 10 then [] else Decimal(n / 10)) + [ToByte(48 + n % 10)]
  }

  function PlacementKey(id: Id): bytes {
    PlacementPrefix() + Decimal(id)
  }

  function NewPlacement(f: Fabric, obj: Object, backend: Id, required: nat, auth: Authority, manifest: Id): (p: Placement)
    requires backend in f.descriptors && f.descriptors[backend].tier in f.tiers
    ensures p.id == f.ids.placement && p.replica == f.ids.replica && p.obj == obj.id && p.manifest == manifest
    ensures p.backend == backend && p.tier == f.descriptors[backend].tier && p.lifecycle == AVAILABLE
    ensures p.physicalSize == p.logicalSize == obj.logicalSize && p.digest == obj.digest
  {
    Placement(f.ids.placement, obj.id, obj.generation, f.ids.replica, 1, backend, f.descriptors[backend].tier, 1,
              PlacementKey(f.ids.placement), manifest, obj.logicalSize, obj.logicalSize, obj.digest,
              Max(required, Max(obj.minReplicas, 1)), f.tiers[f.descriptors[backend].tier].locality,
              AVAILABLE, CURRENT, auth.generation, ORIGIN_WORKER, auth.worker, auth.boot, 1, 0, 0)
  }

  function DomainsOf(rs: seq<Replica>): set<bytes> {
    set r | r in rs :: r.domain
  }

  /** The replica set with its cached counts brought up to date. */
  function Counts(rs: ReplicaSet): ReplicaSet {
    var n := |rs.replicas|;
    var d := |DomainsOf(rs.replicas)|;
    rs.(actual := n, authoritative := n, distinctDomains := d, state := ComputeState(n, d, rs.required))
  }

  function NewReplica(f: Fabric, p: Placement): Replica
    requires p.backend in f.descriptors && p.tier in f.tiers
  {
    Replica(p.replica, p.replicaGeneration, p.backend, f.descriptors[p.backend].node, f.tiers[p.tier].domain,
            p.logicalSize, p.physicalSize, REPLICA_HEALTHY, p.placementGeneration, true)
  }

  /** The catalog entry once placement p is recorded. */
  function WithPlacement(f: Fabric, e: Entry, p: Placement): Entry
    requires p.backend in f.descriptors && p.tier in f.tiers
  {
    var rs := e.replicaSet;
    var replicas := if exists r <- rs.replicas :: r.id == p.replica then rs.replicas else rs.replicas + [NewReplica(f, p)];
    var counted := Counts(rs.(replicas := replicas, required := Max(rs.required, p.durabilityReplicas)));
    e.(placements := e.placements + [p.id],
       replicaSet := counted.(authorityGeneration := p.authorityGeneration, updatedAt := 0))
  }

  /** The backend is registered with its descriptor, tier and ledger account. */
  predicate Registered(f: Fabric, backend: Id) {
    backend in f.stores && backend in f.descriptors && f.descriptors[backend].tier in f.tiers
  }

  /** The catalog's entries know their object's id. */
  ghost predicate Keyed(c: map<Id, Entry>) {
    forall o <- c :: c[o].obj.id == o && c[o].replicaSet.obj == o
  }

  /** Each entry lists the placements of its object. */
  ghost predicate Listing(c: map<Id, Entry>, ps: map<Id, Placement>) {
    forall o, p :: o in c ==> (p in c[o].placements <==> p in ps && ps[p].obj == o)
  }

  /** From the manifest on: placement, commit, catalog. */
  ghost function Record(f: Fabric, obj: Object, backend: Id, opts: Options, auth: Authority, reservation: Id, man: Manifest)
    : (Result<Placement>, Fabric)
    requires Registered(f, backend)
  {
    if man.id in f.manifests then (Err(DuplicateIdentity), f)
    else
      var p := NewPlacement(f, obj, backend, opts.required, auth, man.id);
      var g := f.(manifests := f.manifests[man.id := man],
                  ids := f.ids.(placement := f.ids.placement + 1, replica := f.ids.replica + 1));
      if p.id in f.placements then (Err(DuplicateIdentity), g)
      else
        var (o, l) := L.Commit(f.ledger, reservation, p.id);
        if o.Fail? then (Err(NegativeAccounting), g.(ledger := l))
        else if obj.id !in f.catalog then (Err(NotFound), g.(ledger := l))
        else
          (Ok(p), g.(ledger := l, placements := g.placements[p.id := p],
                     catalog := g.catalog[obj.id := WithPlacement(f, f.catalog[obj.id], p)]))
  }

  /** With the reservation held: write, verify, validate, record. */
  ghost function PublishReserved(f: Fabric, h: Hash, obj: Object, content: bytes, backend: Id, opts: Options,
                                 faults: Faults, auth: Authority, reservation: Id): (Result<Placement>, Fabric)
    requires |content| == obj.logicalSize > 0 && Registered(f, backend)
  {
    var chunk := if opts.chunkSize == 0 then obj.logicalSize else opts.chunkSize;
    var w := WriteFrom(f.blobs, f.stores[backend], h, content, 0, chunk, opts.dedupe, faults);
    var id := f.ids.manifest;
    var g := f.(blobs := w.blobs, stores := f.stores[backend := w.store], ids := f.ids.(manifest := id + 1));
    if !w.ok() then (Err(w.outcome.code), g)
    else
      var v := if opts.eagerVerify then VerifyFrom(w.store, h, w.chunks, 0, faults) else Pass;
      if v.Fail? then (Err(v.code), g)
      else
        var man := BuiltManifest(id, h, obj, w.chunks);
        var o := Validation(man, false);
        if o.Fail? then (Err(o.code), g)
        else Record(g, obj, backend, opts, auth, reservation, man)
  }

  /** Which authority an operation runs under, unless it is refused. */
  function ActingAuthority(f: Fabric, given: Authority): Result<Authority> {
    var auth := if given.IsNil() then f.authority else given;
    if auth.IsNil() then Err(InvalidArgument)
    else if !given.IsNil() && Compare(auth, f.authority) < 0 then Err(StaleAuthority)
    else Ok(auth)
  }

  ghost function Publish(f: Fabric, h: Hash, obj: Object, content: bytes, backend: Id, opts: Options, faults: Faults)
    : (Result<Placement>, Fabric)
    requires backend in f.stores ==> Registered(f, backend)
  {
    if |content| != obj.logicalSize then (Err(LengthMismatch), f)
    else
      match ActingAuthority(f, opts.authority)
      case Err(c) => (Err(c), f)
      case Ok(auth) =>
        if backend !in f.stores then (Err(NotFound), f)
        else
          var (r, l) := L.Reserve(f.ledger, backend, obj.logicalSize, auth.generation, auth.worker);
          if r.Err? then (Err(r.code), f.(ledger := l))
          else
            L.ReserveActive(f.ledger, backend, obj.logicalSize, auth.generation, auth.worker);
            var (res, g) := PublishReserved(f.(ledger := l), h, obj, content, backend, opts, faults, auth, r.value.id);
            // the guard's destructor: a release, which the ledger refuses once the reservation is committed
            (res, g.(ledger := L.Release(g.ledger, r.value.id, r.value.generation).1))
  }


  // ----- read and verify -----

  /** read through one placement record. */
  function ReadPlacement(f: Fabric, p: Placement, faults: Faults): Result<bytes> {
    if p.manifest !in f.manifests then Err(NotFound)
    else if p.backend !in f.stores then Err(NotFound)
    else
      var m := f.manifests[p.manifest];
      match ReadFrom(f.stores[p.backend], m.chunks, 0, faults)
      case Err(c) => Err(c)
      case Ok(data) => if |data| != m.total then Err(LengthMismatch) else Ok(data)
  }

  function ReadById(f: Fabric, id: Id, faults: Faults): Result<bytes> {
    if id !in f.placements then Err(NotFound) else ReadPlacement(f, f.placements[id], faults)
  }

  predicate Live(p: Placement) {
    p.lifecycle != EVICTED
  }

  /** A placement object-level reads may pick; which of several the map iteration meets first is open. */
  predicate Readable(f: Fabric, obj: Id, id: Id) {
    id in f.placements && f.placements[id].obj == obj && f.placements[id].lifecycle == AVAILABLE
  }

  /** The bytes verify hashes: like read, but without the length checks. */
  function VerifyBytes(store: Store, cs: seq<Chunk>, i: nat, faults: Faults): Result<bytes>
    requires i <= |cs|
    decreases |cs| - i
  {
    if i == |cs| then Ok([])
    else if i in faults.readFails || cs[i].blob !in store then Err(IoError)
    else
      match VerifyBytes(store, cs, i + 1, faults)
      case Err(c) => Err(c)
      case Ok(rest) => Ok(store[cs[i].blob] + rest)
  }

  /** verify: whether the stored bytes still have the placement's digest. */
  function VerifyPlacement(f: Fabric, h: Hash, id: Id, faults: Faults): Result<bool> {
    if id !in f.placements || f.placements[id].manifest !in f.manifests then Err(NotFound)
    else
      var p := f.placements[id];
      if p.backend !in f.stores then Err(NotFound)
      else
        match VerifyBytes(f.stores[p.backend], f.manifests[p.manifest].chunks, 0, faults)
        case Err(c) => Err(c)
        case Ok(data) => Ok(h(data) == p.digest)
  }

  // ----- replicate and move -----

  ghost function Replicate(f: Fabric, h: Hash, source: Placement, target: Id, opts: Options, readFaults: Faults, faults: Faults)
    : (Result<Placement>, Fabric)
    requires target in f.stores ==> Registered(f, target)
  {
    if source.obj !in f.catalog then (Err(NotFound), f)
    else
      match ReadById(f, source.id, readFaults)
      case Err(c) => (Err(c), f)
      case Ok(data) =>
        var o := if opts.required == 0 then opts.(required := source.durabilityReplicas) else opts;
        Publish(f, h, f.catalog[source.obj].obj, data, target, o, faults)
  }

  function Demoted(f: Fabric, id: Id): Fabric {
    if id in f.placements
    then f.(placements := f.placements[id := f.placements[id].(lifecycle := LIFECYCLE_STALE)])
    else f
  }

  ghost function Move(f: Fabric, h: Hash, source: Placement, target: Id, opts: Options, readFaults: Faults, faults: Faults)
    : (Result<Placement>, Fabric)
    requires target in f.stores ==> Registered(f, target)
  {
    var (r, g) := Replicate(f, h, source, target, opts, readFaults, faults);
    if r.Err? then (r, g) else (r, Demoted(g, source.id))
  }

  // ----- evict -----

  function CanEvict(f: Fabric, id: Id): Outcome {
    if id !in f.placements then Fail(NotFound)
    else
      var p := f.placements[id];
      if p.lifecycle == EVICTED then Fail(InvalidState)
      else if p.obj !in f.catalog then Fail(NotFound)
      else
        var rs := f.catalog[p.obj].replicaSet;
        if rs.authoritative <= rs.required && p.lifecycle == AVAILABLE then Fail(EvictionUnsafe) else Pass
  }

  function WithoutReplica(replicas: seq<Replica>, id: Id): seq<Replica> {
    if replicas == [] then []
    else if replicas[0].id == id then replicas[1..]
    else [replicas[0]] + WithoutReplica(replicas[1..], id)
  }

  function EvictedEntry(e: Entry, replica: Id): Entry {
    e.(replicaSet := Counts(e.replicaSet.(replicas := WithoutReplica(e.replicaSet.replicas, replica))))
  }

  function EvictedPlacement(p: Placement): Placement {
    p.(lifecycle := EVICTED, freshness := FRESHNESS_STALE)
  }

  /** The effect of an eviction that was allowed. */
  function Evicted(f: Fabric, id: Id, faults: Faults): Fabric
    requires id in f.placements && f.placements[id].obj in f.catalog
  {
    var p := f.placements[id];
    var ids := if p.manifest in f.manifests then BlobsOf(f.manifests[p.manifest].chunks) else [];
    var store := if p.backend in f.stores then f.stores[p.backend] else map[];
    var d := DropAll(Dropped(f.blobs.refs, store), ids, faults);
    f.(placements := f.placements[id := EvictedPlacement(p)],
       blobs := f.blobs.(refs := d.refs),
       stores := if p.backend in f.stores then f.stores[p.backend := d.store] else f.stores,
       catalog := f.catalog[p.obj := EvictedEntry(f.catalog[p.obj], p.replica)],
       ledger := L.RemoveCommitted(f.ledger, p.backend, p.physicalSize).1)
  }

  function Evict(f: Fabric, id: Id, faults: Faults): (Outcome, Fabric) {
    if id !in f.placements then (Fail(NotFound), f)
    else
      var p := f.placements[id];
      if p.obj !in f.catalog then (Fail(NotFound), f)
      else
        var rs := f.catalog[p.obj].replicaSet;
        if rs.authoritative <= rs.required && p.lifecycle == AVAILABLE then (Fail(EvictionUnsafe), f)
        else if p.lifecycle == EVICTED then (Fail(InvalidState), f)
        else (Pass, Evicted(f, id, faults))
  }

  /** can_evict and evict decide alike. */
  lemma EvictDecision(f: Fabric, id: Id, faults: Faults)
    ensures Evict(f, id, faults).0.Pass? <==> CanEvict(f, id).Pass?
    ensures id in f.placements && f.placements[id].obj in f.catalog ==> Evict(f, id, faults).0 == CanEvict(f, id)
  {}

  // ----- Backends -----

  /** register_synthetic_backend and register_local_backend, as far as this model goes: an empty store. */
  function RegisterBackend(f: Fabric, desc: Backend, tier: Tier): Fabric {
    f.(stores := f.stores[desc.id := map[]], tiers := f.tiers[desc.tier := tier],
       descriptors := f.descriptors[desc.id := desc],
       ledger := L.Register(f.ledger, desc.id, desc.capacity))
  }

  function EmptyFabric(): Fabric {
    Fabric(Authority(0, 0, 0, 0, 5), 0, map[], map[], map[], map[], map[], map[], L.Empty(0),
           Blobs(map[], map[], map[], map[], 1), Counters(1, 1, 1, 1))
  }

  // ----- The object -----

  class StorageFabric {
    /** ContentDigest::of */
    const digestOf: Hash
    var authority: Authority
    var policyGeneration: nat
    var stores: map<Id, Store>
    var tiers: map<Id, Tier>
    var descriptors: map<Id, Backend>
    var catalog: map<Id, Entry>
    var placements: map<Id, Placement>
    var manifests: map<Id, Manifest>
    const reservations: L.ReservationLedger
    /** blob_by_digest_, blob_digest_, blob_refs_, blob_sizes_ and blob_counter_ */
    var blobs: Blobs
    /** The other id counters. */
    var ids: Counters

    function Abs(): Fabric
      reads this, reservations
    {
      Fabric(authority, policyGeneration, stores, tiers, descriptors, catalog, placements, manifests,
             reservations.Abs(), blobs, ids)
    }

    constructor (digestOf: Hash)
      ensures Abs() == EmptyFabric() && this.digestOf == digestOf && fresh(reservations)
    {
      this.digestOf := digestOf;
      authority, policyGeneration := Authority(0, 0, 0, 0, 5), 0;
      stores, tiers, descriptors, catalog, placements, manifests := map[], map[], map[], map[], map[], map[];
      reservations := new L.ReservationLedger(0);
      blobs, ids := Blobs(map[], map[], map[], map[], 1), Counters(1, 1, 1, 1);
    }

    method SetAuthority(a: Authority)
      modifies this`authority
      ensures Abs() == old(Abs()).(authority := a)
    {
      authority := a;
    }

    method Register(desc: Backend, tier: Tier)
      modifies this`stores, this`tiers, this`descriptors, reservations
      ensures Abs() == RegisterBackend(old(Abs()), desc, tier)
    {
      stores := stores[desc.id := map[]];
      tiers := tiers[desc.tier := tier];
      descriptors := descriptors[desc.id := desc];
      reservations.RegisterBackend(desc.id, desc.capacity);
    }

    method Define(kind: Enum, size: nat, content: bytes, writer: Authority, minReplicas: nat, priority: Enum)
      returns (r: Result<Object>)
      requires |content| < TWO_64
      modifies this`catalog, this`ids
      ensures (r, Abs()) == DefineObject(old(Abs()), digestOf, kind, size, content, writer, minReplicas, priority)
    {
      hide Text;
      if |content| != size { return Err(LengthMismatch); }
      if size == 0 { return Err(InvalidArgument); }
      var o := DefinedObject(Abs(), digestOf, kind, content, writer, minReplicas, priority);
      ids := ids.(obj := ids.obj + 1);
      var rs := ReplicaSet(o.id, 1, Max(minReplicas, 1), 0, 0, 0, UNDER_REPLICATED, 0, [], 0);
      if o.id in catalog { return Err(DuplicateIdentity); }
      catalog := catalog[o.id := Entry(o, rs, [])];
      return Ok(o);
    }

    /** One turn of the chunking loop: the slice is shared or written. */
    method KeepSlice(slice: bytes, backend: Id, dedupe: bool, faults: Faults) returns (o: Outcome, blob: Id)
      requires backend in stores
      modifies this`stores, this`blobs
      ensures backend in stores && stores == old(stores)[backend := stores[backend]]
      ensures Kept(o, blobs, stores[backend], blob)
           == Keep(old(blobs), old(stores)[backend], digestOf, slice, dedupe, faults)
    {
      var d := digestOf(slice);
      o := Pass;
      if d in blobs.byDigest && dedupe {
        blob := blobs.byDigest[d];
        blobs := blobs.(refs := blobs.refs[blob := Refs(blobs, blob) + 1]);
      } else {
        blob := blobs.next;
        blobs := blobs.(next := blobs.next + 1);
        if blob in faults.putFails {
          return Fail(faults.putFails[blob]), blob;
        }
        var store: Store := stores[backend];
        store := store[blob := slice];
        stores := stores[backend := store];
        blobs := blobs.(digests := blobs.digests[blob := d]);
        blobs := blobs.(sizes := blobs.sizes[blob := |slice|]);
        blobs := blobs.(refs := blobs.refs[blob := 1]);
        blobs := blobs.(byDigest := blobs.byDigest[d := blob]);
      }
    }

    /** The chunking loop of publish_to. */
    method WriteChunks(content: bytes, backend: Id, chunk: nat, dedupe: bool, faults: Faults)
      returns (o: Outcome, chunks: seq<Chunk>)
      requires |content| < TWO_64 && chunk > 0 && backend in stores
      modifies this`stores, this`blobs
      ensures var w := WriteFrom(old(blobs), old(stores)[backend], digestOf, content, 0, chunk, dedupe, faults);
        o == w.outcome && blobs == w.blobs && stores == old(stores)[backend := w.store] && (o.Pass? ==> chunks == w.chunks)
    {
      hide ChunkFor, Keep, WriteFrom;
      WriteDone(content, chunk, digestOf, dedupe, faults);
      ghost var all := WriteFrom(blobs, stores[backend], digestOf, content, 0, chunk, dedupe, faults);
      chunks := [];
      var offset := 0;
      assert all.After([]) == all;
      assert stores == stores[backend := stores[backend]];
      while offset < |content|
        invariant 0 <= offset <= |content| && backend in stores && stores == old(stores)[backend := stores[backend]]
        invariant WriteFrom(blobs, stores[backend], digestOf, content, offset, chunk, dedupe, faults).After(chunks) == all
      {
        var n := SliceLength(content, offset, chunk);
        var slice := content[offset..offset + n];
        WriteTurn(blobs, stores[backend], digestOf, content, offset, chunk, dedupe, faults);
        var kept, blob := KeepSlice(slice, backend, dedupe, faults);
        if kept.Fail? {
          return kept, chunks;
        }
        var c := ChunkFor(content, offset, chunk, digestOf(slice), blob);
        AfterTwice(WriteFrom(blobs, stores[backend], digestOf, content, offset + n, chunk, dedupe, faults), chunks, [c]);
        chunks := chunks + [c];
        offset := offset + n;
      }
      assert chunks + [] == chunks;
      o := Pass;
    }

    method VerifyChunks(backend: Id, chunks: seq<Chunk>, faults: Faults) returns (o: Outcome)
      requires backend in stores
      ensures o == VerifyFrom(stores[backend], digestOf, chunks, 0, faults)
    {
      for i := 0 to |chunks|
        invariant VerifyFrom(stores[backend], digestOf, chunks, i, faults)
               == VerifyFrom(stores[backend], digestOf, chunks, 0, faults)
      {
        var c := chunks[i];
        if i in faults.readFails || c.blob !in stores[backend] { return Fail(IntegrityMismatch); }
        if digestOf(stores[backend][c.blob]) != c.digest { return Fail(DigestMismatch); }
      }
      return Pass;
    }

    /** Recording a verified manifest: placement, commit through the guard, catalog. */
    method RecordPlacement(obj: Object, backend: Id, opts: Options, auth: Authority, guard: G.ReservationGuard, man: Manifest)
      returns (r: Result<Placement>)
      requires Registered(Abs(), backend) && guard.ledger == reservations
      modifies this`manifests, this`placements, this`catalog, this`ids, reservations, guard
      ensures (r, Abs()) == Record(old(Abs()), obj, backend, opts, auth, old(guard.res.id), man)
      ensures guard.ledger == reservations && guard.res == old(guard.res)
      ensures guard.armed == old(guard.armed) || L.IsCommitted(reservations.Abs(), guard.res.id)
    {
      hide NewPlacement, WithPlacement, L.Commit;
      if man.id in manifests { return Err(DuplicateIdentity); }
      ghost var before := Abs();
      var p := NewPlacement(Abs(), obj, backend, opts.required, auth, man.id);
      var entered := if obj.id in catalog then Some(WithPlacement(Abs(), catalog[obj.id], p)) else None;
      manifests := manifests[man.id := man];
      ids := ids.(placement := ids.placement + 1, replica := ids.replica + 1);
      if p.id in placements { return Err(DuplicateIdentity); }
      L.CommitOutcome(reservations.Abs(), guard.res.id, p.id);
      var committed := guard.CommitTo(p.id);
      if committed.Fail? { return Err(NegativeAccounting); }
      if obj.id !in catalog { return Err(NotFound); }
      catalog := catalog[obj.id := entered.value];
      placements := placements[p.id := p];
      return Ok(p);
    }

    /** With the reservation held. */
    method PublishHeld(obj: Object, content: bytes, backend: Id, opts: Options, faults: Faults, auth: Authority,
                       guard: G.ReservationGuard) returns (r: Result<Placement>)
      requires |content| == obj.logicalSize > 0 && Registered(Abs(), backend) && guard.ledger == reservations
      modifies this, reservations, guard
      ensures (r, Abs()) == PublishReserved(old(Abs()), digestOf, obj, content, backend, opts, faults, auth, old(guard.res.id))
      ensures guard.ledger == reservations && guard.res == old(guard.res)
      ensures guard.armed == old(guard.armed) || L.IsCommitted(reservations.Abs(), guard.res.id)
    {
      hide Record, WriteFrom, VerifyFrom, Validation, BuiltManifest;
      var id := ids.manifest;
      ids := ids.(manifest := id + 1);
      var chunk := if opts.chunkSize == 0 then obj.logicalSize else opts.chunkSize;
      ghost var w := WriteFrom(blobs, stores[backend], digestOf, content, 0, chunk, opts.dedupe, faults);
      var written, chunks := WriteChunks(content, backend, chunk, opts.dedupe, faults);
      if written.Fail? { return Err(written.code); }
      if opts.eagerVerify {
        var v := VerifyChunks(backend, chunks, faults);
        if v.Fail? { return Err(v.code); }
      }
      WriteSlices(old(blobs), old(stores)[backend], digestOf, content, 0, chunk, opts.dedupe, faults);
      chunks := SortSlices(chunks, digestOf, content);
      var man := BuiltManifest(id, digestOf, obj, chunks);
      var o := ValidateManifest(man, false);
      if o.Fail? { return Err(o.code); }
      r := RecordPlacement(obj, backend, opts, auth, guard, man);
    }

    /** publish_to */
    method PublishTo(obj: Object, content: bytes, backend: Id, opts: Options, faults: Faults) returns (r: Result<Placement>)
      requires backend in stores ==> Registered(Abs(), backend)
      modifies this, reservations
      ensures (r, Abs()) == Publish(old(Abs()), digestOf, obj, content, backend, opts, faults)
    {
      hide PublishReserved, L.Reserve, L.Release;
      if |content| != obj.logicalSize { return Err(LengthMismatch); }
      var acting := ActingAuthority(Abs(), opts.authority);
      if acting.Err? { return Err(acting.code); }
      var auth := acting.value;
      if backend !in stores { return Err(NotFound); }
      L.ReserveActive(reservations.Abs(), backend, obj.logicalSize, auth.generation, auth.worker);
      var res := reservations.ReserveBytes(backend, obj.logicalSize, auth.generation, auth.worker);
      if res.Err? { return Err(res.code); }
      var guard := new G.ReservationGuard(reservations, res.value, true);
      r := PublishHeld(obj, content, backend, opts, faults, auth, guard);
      if !guard.armed {
        L.CommittedStays(reservations.Abs(), res.value.id, res.value.generation);
      }
      guard.Destroy();
    }

    method ReadChunks(store: Store, chunks: seq<Chunk>, faults: Faults) returns (r: Result<bytes>)
      ensures r == ReadFrom(store, chunks, 0, faults)
    {
      var out := [];
      PrefixedNone(ReadFrom(store, chunks, 0, faults));
      for i := 0 to |chunks|
        invariant ReadFrom(store, chunks, 0, faults) == Prefixed(out, ReadFrom(store, chunks, i, faults))
      {
        var c := chunks[i];
        if i in faults.readFails || c.blob !in store { return Err(IoError); }
        var data := store[c.blob];
        if |data| != c.physicalLength { return Err(LengthMismatch); }
        PrefixedTwice(out, data, ReadFrom(store, chunks, i + 1, faults));
        out := out + data;
      }
      assert out + [] == out;
      return Ok(out);
    }

    /** read, of a given placement or of one of the object's AVAILABLE placements. */
    method Read(obj: Id, placement: Option<Id>, faults: Faults) returns (r: Result<bytes>)
      ensures placement.Some? ==> r == ReadById(Abs(), placement.value, faults)
      ensures placement.None? && (exists id :: Readable(Abs(), obj, id)) ==>
        exists id :: Readable(Abs(), obj, id) && r == ReadById(Abs(), id, faults)
      ensures placement.None? && !(exists id :: Readable(Abs(), obj, id)) ==> r == Err(NotFound)
    {
      if placement.Some? {
        r := ReadOne(placement.value, faults);
        return;
      }
      var candidates := set i | i in placements && placements[i].obj == obj && placements[i].lifecycle == AVAILABLE;
      assert forall i :: Readable(Abs(), obj, i) <==> i in candidates;
      if candidates == {} {
        return Err(NotFound);
      }
      var id :| id in candidates;
      assert Readable(Abs(), obj, id);
      r := ReadOne(id, faults);
    }

    method ReadOne(id: Id, faults: Faults) returns (r: Result<bytes>)
      ensures r == ReadById(Abs(), id, faults)
    {
      if id !in placements { return Err(NotFound); }
      var p := placements[id];
      if p.manifest !in manifests { return Err(NotFound); }
      var m := manifests[p.manifest];
      if p.backend !in stores { return Err(NotFound); }
      r := ReadChunks(stores[p.backend], m.chunks, faults);
      if r.Ok? && |r.value| != m.total { r := Err(LengthMismatch); }
    }

    /** verify */
    method Verify(id: Id, faults: Faults) returns (r: Result<bool>)
      ensures r == VerifyPlacement(Abs(), digestOf, id, faults)
    {
      if id !in placements { return Err(NotFound); }
      var p := placements[id];
      if p.manifest !in manifests { return Err(NotFound); }
      var chunks := manifests[p.manifest].chunks;
      if p.backend !in stores { return Err(NotFound); }
      var out := [];
      ghost var store: Store := stores[p.backend];
      PrefixedNone(VerifyBytes(store, chunks, 0, faults));
      for i := 0 to |chunks|
        invariant VerifyBytes(store, chunks, 0, faults) == Prefixed(out, VerifyBytes(store, chunks, i, faults))
      {
        var c := chunks[i];
        if i in faults.readFails || c.blob !in stores[p.backend] { return Err(IoError); }
        var data := stores[p.backend][c.blob];
        PrefixedTwice(out, data, VerifyBytes(store, chunks, i + 1, faults));
        out := out + data;
      }
      assert out + [] == out;
      return Ok(digestOf(out) == p.digest);
    }

    method ReplicateTo(source: Placement, target: Id, opts: Options, readFaults: Faults, faults: Faults)
      returns (r: Result<Placement>)
      requires target in stores ==> Registered(Abs(), target)
      modifies this, reservations
      ensures (r, Abs()) == Replicate(old(Abs()), digestOf, source, target, opts, readFaults, faults)
    {
      hide Publish, ReadPlacement;
      if source.obj !in catalog { return Err(NotFound); }
      var obj := catalog[source.obj].obj;
      var data := Read(source.obj, Some(source.id), readFaults);
      if data.Err? { return Err(data.code); }
      var o := if opts.required == 0 then opts.(required := source.durabilityReplicas) else opts;
      SizeChecked(Abs(), digestOf, obj, data.value, target, o, faults);
      if |data.value| != obj.logicalSize { return Err(LengthMismatch); }
      r := PublishTo(obj, data.value, target, o, faults);
    }

    method MoveTo(source: Placement, target: Id, opts: Options, readFaults: Faults, faults: Faults)
      returns (r: Result<Placement>)
      requires target in stores ==> Registered(Abs(), target)
      modifies this, reservations
      ensures (r, Abs()) == Move(old(Abs()), digestOf, source, target, opts, readFaults, faults)
    {
      hide Replicate;
      r := ReplicateTo(source, target, opts, readFaults, faults);
      if r.Err? { return; }
      if source.id in placements {
        placements := placements[source.id := placements[source.id].(lifecycle := LIFECYCLE_STALE)];
      }
    }

    /** The reference-dropping loop of evict. */
    method DropBlobs(backend: Id, ids: seq<Id>, faults: Faults)
      modifies this`stores, this`blobs
      ensures var before := if backend in old(stores) then old(stores)[backend] else map[];
        var d := DropAll(Dropped(old(blobs.refs), before), ids, faults);
        blobs == old(blobs).(refs := d.refs)
        && stores == (if backend in old(stores) then old(stores)[backend := d.store] else old(stores))
    {
      hide DropOne;
      ghost var start := Dropped(blobs.refs, if backend in stores then stores[backend] else map[]);
      ghost var current := start;
      assert backend in stores ==> stores == stores[backend := stores[backend]];
      for i := 0 to |ids|
        invariant (backend in stores) == (backend in old(stores))
        invariant stores == (if backend in old(stores) then old(stores)[backend := current.store] else old(stores))
        invariant blobs == old(blobs).(refs := current.refs)
        invariant backend !in old(stores) ==> current.store == map[]
        invariant DropAll(current, ids[i..], faults) == DropAll(start, ids, faults)
      {
        DropOneEmpty(current, ids[i], faults);
        current := DropOne(current, ids[i], faults);
        assert ids[i..][0] == ids[i] && ids[i..][1..] == ids[i + 1..];
        DropBlob(backend, ids[i], faults);
      }
      assert ids[|ids|..] == [];
    }

    method DropBlob(backend: Id, id: Id, faults: Faults)
      modifies this`stores, this`blobs
      ensures var before := if backend in old(stores) then old(stores)[backend] else map[];
        var d := DropOne(Dropped(old(blobs.refs), before), id, faults);
        blobs == old(blobs).(refs := d.refs)
        && stores == (if backend in old(stores) then old(stores)[backend := d.store] else old(stores))
    {
      assert backend in stores ==> stores == stores[backend := stores[backend]];
      if id in blobs.refs {
        var n := if blobs.refs[id] > 0 then blobs.refs[id] - 1 else 0;
        blobs := blobs.(refs := blobs.refs[id := n]);
        if n == 0 {
          if backend in stores && id !in faults.removeFails {
            var store: Store := stores[backend];
            store := store - {id};
            stores := stores[backend := store];
          }
          blobs := blobs.(refs := blobs.refs - {id});
        }
      }
    }

    /** can_evict */
    method MayEvict(id: Id) returns (o: Outcome)
      ensures o == CanEvict(Abs(), id)
    {
      if id !in placements { return Fail(NotFound); }
      var p := placements[id];
      if p.lifecycle == EVICTED { return Fail(InvalidState); }
      if p.obj !in catalog { return Fail(NotFound); }
      var rs := catalog[p.obj].replicaSet;
      if rs.authoritative <= rs.required && p.lifecycle == AVAILABLE { return Fail(EvictionUnsafe); }
      return Pass;
    }

    /** evict; its two critical sections as one step. */
    method EvictPlacement(id: Id, faults: Faults) returns (o: Outcome)
      modifies this, reservations
      ensures (o, Abs()) == Evict(old(Abs()), id, faults)
    {
      hide DropAll, BlobsOf, EvictedPlacement, EvictedEntry, L.RemoveCommitted;
      if id !in placements { return Fail(NotFound); }
      var p := placements[id];
      if p.obj !in catalog { return Fail(NotFound); }
      var rs := catalog[p.obj].replicaSet;
      if rs.authoritative <= rs.required && p.lifecycle == AVAILABLE { return Fail(EvictionUnsafe); }
      if p.lifecycle == EVICTED { return Fail(InvalidState); }
      var ids := if p.manifest in manifests then BlobsOf(manifests[p.manifest].chunks) else [];
      placements := placements[id := EvictedPlacement(p)];
      DropBlobs(p.backend, ids, faults);
      catalog := catalog[p.obj := EvictedEntry(catalog[p.obj], p.replica)];
      var _ := reservations.RemoveCommittedBytes(p.backend, p.physicalSize);
      return Pass;
    }
  }

  lemma WriteDone(content: bytes, chunk: nat, h: Hash, dedupe: bool, faults: Faults)
    requires |content| < TWO_64 && chunk > 0
    ensures forall b, store ::
      WriteFrom(b, store, h, content, |content|, chunk, dedupe, faults) == Written(Pass, b, store, [])
  {}

  /** One turn of the loop. */
  lemma WriteTurn(b: Blobs, store: Store, h: Hash, content: bytes, offset: nat, chunk: nat, dedupe: bool, faults: Faults)
    requires offset < |content| < TWO_64 && chunk > 0
    ensures var n := SliceLength(content, offset, chunk);
      var slice := content[offset..offset + n];
      var k := Keep(b, store, h, slice, dedupe, faults);
      WriteFrom(b, store, h, content, offset, chunk, dedupe, faults) ==
        if k.ok() then
          WriteFrom(k.blobs, k.store, h, content, offset + n, chunk, dedupe, faults)
            .After([ChunkFor(content, offset, chunk, h(slice), k.id)])
        else Written(k.outcome, k.blobs, k.store, [])
  {}

  lemma AfterTwice(w: Written, a: seq<Chunk>, b: seq<Chunk>)
    ensures w.After(b).After(a) == w.After(a + b)
  {
    assert a + (b + w.chunks) == (a + b) + w.chunks;
  }

  function Prefixed(out: bytes, r: Result<bytes>): Result<bytes> {
    match r
    case Err(c) => Err(c)
    case Ok(rest) => Ok(out + rest)
  }

  lemma PrefixedNone(r: Result<bytes>)
    ensures Prefixed([], r) == r
  {
    if r.Ok? {
      assert [] + r.value == r.value;
    }
  }

  lemma PrefixedTwice(a: bytes, b: bytes, r: Result<bytes>)
    ensures Prefixed(a, Prefixed(b, r)) == Prefixed(a + b, r)
  {
    if r.Ok? {
      assert a + (b + r.value) == (a + b) + r.value;
    }
  }

  lemma SizeChecked(f: Fabric, h: Hash, obj: Object, content: bytes, backend: Id, opts: Options, faults: Faults)
    requires backend in f.stores ==> Registered(f, backend)
    ensures |content| != obj.logicalSize ==> Publish(f, h, obj, content, backend, opts, faults) == (Err(LengthMismatch), f)
  {}

  /** Slices are in order already, so sorting changes nothing. */
  method SortSlices(chunks: seq<Chunk>, h: Hash, content: bytes) returns (sorted: seq<Chunk>)
    requires Slices(chunks, h, content, 0)
    ensures sorted == chunks
  {
    sorted := SortChunks(chunks);
    SlicesStrict(chunks, h, content, 0);
    StrictSortUnique(chunks, sorted);
  }

  lemma {:induction false} SlicesStrict(cs: seq<Chunk>, h: Hash, content: bytes, offset: nat)
    requires offset <= |content| && Slices(cs, h, content, offset)
    ensures forall c <- cs :: offset <= c.offset
    ensures forall i, j :: 0 <= i < j < |cs| ==> cs[i].offset < cs[j].offset
    decreases |cs|
  {
    if cs != [] {
      SlicesStrict(cs[1..], h, content, offset + cs[0].logicalLength);
      forall i, j | 0 <= i < j < |cs|
        ensures cs[i].offset < cs[j].offset
      {
        assert cs[j] == cs[1..][j - 1];
        if i > 0 {
          assert cs[i] == cs[1..][i - 1];
        }
      }
    }
  }

  lemma StrictSortUnique(s: seq<Chunk>, t: seq<Chunk>)
    requires forall i, j :: 0 <= i < j < |s| ==> s[i].offset < s[j].offset
    requires Sorted(t) && multiset(s) == multiset(t)
    ensures s == t
  {
    P.SameLength(s, t);
    P.SameMembers(s, t);
    forall i | 0 <= i < |s|
      ensures s[i] == t[i]
    {
      SortedKeysUnique(s, t, i);
      assert t[i] in t;
      var j :| 0 <= j < |s| && s[j] == t[i];
    }
  }
}
