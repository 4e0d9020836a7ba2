/** What a publication records: the placement, its replica and its manifest, down to the codes that are saved. */
module Publications {
  import opened Bytes
  import opened Status
  import opened Model
  import opened Manifests
  import opened BlobStore
  import opened Runtime
  import opened Effects
  import opened Durability
  import L = Ledger

  /** The placement takes the next ids, describes what was published and where it lies, and names its writer. It is
      AVAILABLE (4), CURRENT (0) and from a WORKER (2), and may be picked when the object is read. */
  lemma PlacementRecorded(f: Fabric, h: Hash, obj: Object, content: bytes, backend: Id, opts: Options, faults: Faults,
                          g: Fabric, p: Placement)
    requires Registered(f, backend) && obj.id in f.catalog
    requires Publish(f, h, obj, content, backend, opts, faults) == (Ok(p), g)
    ensures var writer := if opts.authority.IsNil() then f.authority else opts.authority;
      && p.id in g.placements && g.placements[p.id] == p && Readable(g, obj.id, p.id)
      && p.id == f.ids.placement && p.replica == f.ids.replica && p.manifest == f.ids.manifest
      && p.obj == obj.id && p.objectGeneration == obj.generation && p.digest == obj.digest
      && p.logicalSize == p.physicalSize == |content|
      && p.backend == backend && p.tier == f.descriptors[backend].tier && p.locality == f.tiers[p.tier].locality
      && p.key == Text("placements/placement-") + Decimal(p.id)
      && p.durabilityReplicas in {opts.required, obj.minReplicas, 1}
      && p.durabilityReplicas >= opts.required && p.durabilityReplicas >= obj.minReplicas && p.durabilityReplicas >= 1
      && p.lifecycle == 4 && p.freshness == 0 && p.provenance == 2
      && p.replicaGeneration == p.placementGeneration == p.volume == 1 && p.createdAt == p.availableAt == 0
      && p.authorityGeneration == writer.generation && p.writerWorker == writer.worker && p.writerBoot == writer.boot
  {
    hide Publish, Chunking, VerifyFrom, BuiltManifest, WithPlacement, PlacementKey;
    PublishEffect(f, h, obj, content, backend, opts, faults);
    RecordIs(f, h, obj, content, backend, opts, faults);
    KeyText(f.ids.placement);
  }

  lemma KeyText(id: Id)
    ensures PlacementKey(id) == Text("placements/placement-") + Decimal(id)
  {
    hide Text, Decimal;
  }

  lemma RecordIs(f: Fabric, h: Hash, obj: Object, content: bytes, backend: Id, opts: Options, faults: Faults)
    requires (backend in f.stores ==> Registered(f, backend)) && Publish(f, h, obj, content, backend, opts, faults).0.Ok?
    ensures Registered(f, backend)
    ensures var writer := if opts.authority.IsNil() then f.authority else opts.authority;
      Publish(f, h, obj, content, backend, opts, faults).0.value
        == NewPlacement(f, obj, backend, opts.required, writer, f.ids.manifest)
  {
    hide PublishReserved, NewPlacement, L.Reserve, L.Release;
    match ActingAuthority(f, opts.authority)
    case Ok(auth) =>
      L.ReserveActive(f.ledger, backend, obj.logicalSize, auth.generation, auth.worker);
      var (r, l) := L.Reserve(f.ledger, backend, obj.logicalSize, auth.generation, auth.worker);
      ReservedRecord(f.(ledger := l), h, obj, content, backend, opts, faults, auth, r.value.id);
      SameRecordMade(f, f.(ledger := l), obj, backend, opts.required, auth, f.ids.manifest);
  }

  lemma ReservedRecord(f: Fabric, h: Hash, obj: Object, content: bytes, backend: Id, opts: Options, faults: Faults,
                       auth: Authority, reservation: Id)
    requires |content| == obj.logicalSize > 0 && Registered(f, backend)
    requires PublishReserved(f, h, obj, content, backend, opts, faults, auth, reservation).0.Ok?
    ensures PublishReserved(f, h, obj, content, backend, opts, faults, auth, reservation).0.value
         == NewPlacement(f, obj, backend, opts.required, auth, f.ids.manifest)
  {
    hide WriteFrom, VerifyFrom, Validation, BuiltManifest, WithPlacement, NewPlacement, L.Commit;
    var w := Chunking(f, h, obj, content, backend, opts, faults);
    BuiltId(f.ids.manifest, h, obj, w.chunks);
    SameRecordMade(f, WrittenState(f, backend, w), obj, backend, opts.required, auth, f.ids.manifest);
  }

  lemma BuiltId(id: Id, h: Hash, obj: Object, chunks: seq<Chunk>)
    ensures BuiltManifest(id, h, obj, chunks).id == id
  {}

  lemma SameRecordMade(f: Fabric, g: Fabric, obj: Object, backend: Id, required: nat, auth: Authority, manifest: Id)
    requires Registered(f, backend) && g.descriptors == f.descriptors && g.tiers == f.tiers
    requires g.ids.placement == f.ids.placement && g.ids.replica == f.ids.replica
    ensures NewPlacement(g, obj, backend, required, auth, manifest) == NewPlacement(f, obj, backend, required, auth, manifest)
  {}

  /** The catalog entry gains the placement and, unless its id is taken, a HEALTHY (1), authoritative replica on the
      backend's node, in the failure domain of its tier; the counts are brought up to date. */
  lemma ReplicaRecorded(f: Fabric, h: Hash, obj: Object, content: bytes, backend: Id, opts: Options, faults: Faults,
                        g: Fabric, p: Placement)
    requires Registered(f, backend) && obj.id in f.catalog
    requires Publish(f, h, obj, content, backend, opts, faults) == (Ok(p), g)
    ensures obj.id in g.catalog
    ensures var e, e' := f.catalog[obj.id], g.catalog[obj.id];
      var was, now := e.replicaSet, e'.replicaSet;
      var node, domain := f.descriptors[backend].node, f.tiers[f.descriptors[backend].tier].domain;
      var added := Replica(p.replica, 1, backend, node, domain, |content|, |content|, 1, 1, true);
      && e'.obj == e.obj && e'.placements == e.placements + [p.id]
      && ((forall x <- was.replicas :: x.id != p.replica) ==> now.replicas == was.replicas + [added])
      && now.required == Max(was.required, p.durabilityReplicas)
      && now.actual == now.authoritative == |now.replicas|
      && now.distinctDomains == |set x | x in now.replicas :: x.domain|
      && now.authorityGeneration == p.authorityGeneration && now.obj == was.obj && now.generation == was.generation
  {
    hide Publish, Chunking, VerifyFrom, BuiltManifest, WithPlacement, PlacementKey;
    PublishEffect(f, h, obj, content, backend, opts, faults);
    PlacementRecorded(f, h, obj, content, backend, opts, faults, g, p);
    EntryGains(f, f.catalog[obj.id], p);
  }

  lemma EntryGains(f: Fabric, e: Entry, p: Placement)
    requires Placeable(f, p)
    ensures var e' := WithPlacement(f, e, p);
      var was, now := e.replicaSet, e'.replicaSet;
      var added := Replica(p.replica, p.replicaGeneration, p.backend, f.descriptors[p.backend].node, f.tiers[p.tier].domain,
                           p.logicalSize, p.physicalSize, 1, p.placementGeneration, true);
      && e'.obj == e.obj && e'.placements == e.placements + [p.id]
      && ((forall x <- was.replicas :: x.id != p.replica) ==> now.replicas == was.replicas + [added])
      && now.required == Max(was.required, p.durabilityReplicas)
      && now.actual == now.authoritative == |now.replicas|
      && now.distinctDomains == |set x | x in now.replicas :: x.domain|
      && now.authorityGeneration == p.authorityGeneration && now.obj == was.obj && now.generation == was.generation
  {
    hide ComputeState;
  }

  /** A replica set is HEALTHY (1) exactly when its replicas lie in as many failure domains as are required, otherwise
      FAILED (5) when it has none, and UNDER_REPLICATED (0) when it has: STALE is never reached. */
  lemma StateMeans(e: Entry)
    requires Cached(e) && e.placements != []
    ensures var rs := e.replicaSet;
      var domains := |set r | r in rs.replicas :: r.domain|;
      rs.state == if domains >= rs.required then 1 else if rs.replicas == [] then 5 else 0
  {
    DomainsBounded(e.replicaSet.replicas);
  }

  lemma {:induction false} DomainsBounded(rs: seq<Replica>)
    ensures |DomainsOf(rs)| <= |rs| && (rs != [] ==> |DomainsOf(rs)| > 0)
  {
    if rs != [] {
      DomainsBounded(rs[1..]);
      assert rs == [rs[0]] + rs[1..];
      assert DomainsOf(rs) == {rs[0].domain} + DomainsOf(rs[1..]);
    }
  }

  /** The manifest is that of the object, hashed as it stands, over the content's slices; its chunks are of generation 1
      and from a WORKER (2). */
  lemma ManifestRecorded(f: Fabric, h: Hash, obj: Object, content: bytes, backend: Id, opts: Options, faults: Faults,
                         g: Fabric, p: Placement)
    requires Registered(f, backend) && obj.id in f.catalog
    requires Publish(f, h, obj, content, backend, opts, faults) == (Ok(p), g)
    ensures p.manifest in g.manifests
    ensures var m := g.manifests[p.manifest];
      && m.id == p.manifest && m.generation == 1 && m.obj == obj.id && m.objectGeneration == obj.generation
      && m.total == |content| && m.digest == h(ManifestBytes(m.(digest := []))) && Slices(m.chunks, h, content, 0)
      && forall c <- m.chunks :: c.generation == 1 && c.provenance == 2
  {
    hide Publish, WriteFrom, VerifyFrom, WithPlacement, ManifestBytes, Slices;
    PublishEffect(f, h, obj, content, backend, opts, faults);
    WriteSlices(f.blobs, f.stores[backend], h, content, 0, ChunkSize(obj, opts), opts.dedupe, faults);
    ChunkCodes(f.blobs, f.stores[backend], h, content, 0, ChunkSize(obj, opts), opts.dedupe, faults);
  }

  lemma {:induction false} ChunkCodes(b: Blobs, store: Store, h: Hash, content: bytes, offset: nat, chunk: nat, dedupe: bool,
                                      faults: Faults)
    requires offset <= |content| < TWO_64 && chunk > 0
    ensures forall c <- WriteFrom(b, store, h, content, offset, chunk, dedupe, faults).chunks :: c.generation == 1 && c.provenance == 2
    decreases |content| - offset
  {
    hide Keep;
    if offset < |content| {
      var n := SliceLength(content, offset, chunk);
      var k := Keep(b, store, h, content[offset..offset + n], dedupe, faults);
      ChunkCodes(k.blobs, k.store, h, content, offset + n, chunk, dedupe, faults);
    }
  }

  // ----- What evictions and moves record -----

  /** An allowed eviction leaves the record as EVICTED (9) and STALE (1), takes the replica off the list, and brings the
      counts up to date; what is required stays. */
  lemma EvictionRecorded(f: Fabric, id: Id, faults: Faults)
    requires Evict(f, id, faults).0.Pass?
    ensures var g := Evict(f, id, faults).1;
      && id in f.placements && f.placements[id].obj in f.catalog
      && g.placements == f.placements[id := f.placements[id].(lifecycle := 9, freshness := 1)]
      && !Readable(g, f.placements[id].obj, id)
      && g.catalog.Keys == f.catalog.Keys
      && var e, e' := f.catalog[f.placements[id].obj], g.catalog[f.placements[id].obj];
         e'.obj == e.obj && e'.placements == e.placements && e'.replicaSet.required == e.replicaSet.required
         && e'.replicaSet.replicas == WithoutReplica(e.replicaSet.replicas, f.placements[id].replica)
         && e'.replicaSet.actual == e'.replicaSet.authoritative == |e'.replicaSet.replicas|
         && e'.replicaSet.distinctDomains == |set x | x in e'.replicaSet.replicas :: x.domain|
  {
    hide DropAll, BlobsOf, WithoutReplica, ComputeState, L.RemoveCommitted;
  }

  /** What evict answers: nothing under the id, evicted already, no copy to spare, or done. Copies are the placements not
      evicted; a placement that is not AVAILABLE may always go. */
  lemma EvictAnswers(f: Fabric, id: Id, faults: Faults)
    requires Durable(f)
    ensures Evict(f, id, faults).0 ==
      if id !in f.placements then Fail(NotFound)
      else
        var p := f.placements[id];
        if p.lifecycle == 9 then Fail(InvalidState)
        else if p.lifecycle == 4 && |LivePlacements(f.placements, p.obj)| <= f.catalog[p.obj].replicaSet.required
        then Fail(EvictionUnsafe)
        else Pass
  {
    hide Evicted, Keyed, Listing, ComputeState, DistinctReplicas, HasReplica, HasPlacement;
  }

  /** A move leaves the record of its source as it was but for its lifecycle, now STALE (6). */
  lemma MoveRecorded(f: Fabric, h: Hash, source: Placement, target: Id, opts: Options, readFaults: Faults, faults: Faults,
                     g: Fabric, p: Placement)
    requires (target in f.stores ==> Registered(f, target)) && Keyed(f.catalog)
    requires Move(f, h, source, target, opts, readFaults, faults) == (Ok(p), g)
    ensures source.id in f.placements && source.id in g.placements
    ensures g.placements[source.id] == f.placements[source.id].(lifecycle := 6) && !Readable(g, source.obj, source.id)
  {
    hide Publish, ReadPlacement, Chunking, VerifyFrom, BuiltManifest, WithPlacement;
    var o := if opts.required == 0 then opts.(required := source.durabilityReplicas) else opts;
    PublishEffect(f, h, f.catalog[source.obj].obj, ReadById(f, source.id, readFaults).value, target, o, faults);
  }

  /** A copy for which no number of replicas is asked wants as many as its source. */
  lemma CopyRecorded(f: Fabric, h: Hash, source: Placement, target: Id, opts: Options, readFaults: Faults, faults: Faults,
                     g: Fabric, p: Placement)
    requires (target in f.stores ==> Registered(f, target)) && Keyed(f.catalog)
    requires Replicate(f, h, source, target, opts, readFaults, faults) == (Ok(p), g)
    ensures source.obj in f.catalog && p.obj == source.obj && p.backend == target && p.digest == f.catalog[source.obj].obj.digest
    ensures var asked := if opts.required == 0 then source.durabilityReplicas else opts.required;
      p.durabilityReplicas >= asked && p.durabilityReplicas >= f.catalog[source.obj].obj.minReplicas
      && p.durabilityReplicas in {asked, f.catalog[source.obj].obj.minReplicas, 1}
  {
    hide Publish, ReadPlacement, NewPlacement, WithPlacement, Text, Decimal;
    var o := if opts.required == 0 then opts.(required := source.durabilityReplicas) else opts;
    var obj, data := f.catalog[source.obj].obj, ReadById(f, source.id, readFaults).value;
    RecordIs(f, h, obj, data, target, o, faults);
    PlacementRecorded(f, h, obj, data, target, o, faults, g, p);
  }

  // ----- Keys -----

  lemma {:induction false} DecimalInjective(m: nat, n: nat)
    requires Decimal(m) == Decimal(n)
    ensures m == n
  {
    hide ToByte;
    var a, b := Decimal(m), Decimal(n);
    assert a[|a| - 1] as nat == 48 + m % 10 && b[|b| - 1] as nat == 48 + n % 10;
    assert a[..|a| - 1] == (if m < 10 then [] else Decimal(m / 10));
    assert b[..|b| - 1] == (if n < 10 then [] else Decimal(n / 10));
    if m >= 10 && n >= 10 {
      DecimalInjective(m / 10, n / 10);
    }
  }

  /** Placements of different ids have different keys. */
  lemma KeysDistinct(m: Id, n: Id)
    requires PlacementKey(m) == PlacementKey(n)
    ensures m == n
  {
    hide Text;
    var prefix := PlacementPrefix();
    assert PlacementKey(m)[|prefix|..] == Decimal(m) && PlacementKey(n)[|prefix|..] == Decimal(n);
    DecimalInjective(m, n);
  }

  // ----- The manifest's digest -----

  /** The fields a chunk is hashed by. */
  predicate SameChunk(c: Chunk, d: Chunk) {
    && c.id == d.id && c.offset == d.offset && c.logicalLength == d.logicalLength && c.physicalLength == d.physicalLength
    && c.digest == d.digest && c.blob == d.blob
  }

  predicate Sized(c: Chunk) {
    c.id < TWO_64 && c.blob < TWO_64 && |c.digest| == 32
  }

  lemma LeSame(a: nat, b: nat)
    requires a < TWO_64 && b < TWO_64 && Le(a, 8) == Le(b, 8)
    ensures a == b
  {
    hide Le, UnLe, Radix;
    RadixValues();
    LeRoundTrip(a, 8);
    LeRoundTrip(b, 8);
  }

  function ChunkRecord(c: Chunk): bytes {
    Le(c.id, 8) + Le(c.offset, 8) + Le(c.logicalLength, 8) + Le(c.physicalLength, 8) + c.digest + Le(c.blob, 8)
  }

  lemma ChunkFields(c: Chunk)
    requires |c.digest| == 32
    ensures var s := ChunkRecord(c);
      |s| == 72 && s[..8] == Le(c.id, 8) && s[8..16] == Le(c.offset, 8) && s[16..24] == Le(c.logicalLength, 8)
      && s[24..32] == Le(c.physicalLength, 8) && s[32..64] == c.digest && s[64..] == Le(c.blob, 8)
  {
    hide Le;
  }

  lemma ChunkRecordInjective(c: Chunk, d: Chunk)
    requires Sized(c) && Sized(d) && ChunkRecord(c) == ChunkRecord(d)
    ensures SameChunk(c, d)
  {
    hide Le, ChunkRecord;
    ChunkFields(c);
    ChunkFields(d);
    LeSame(c.id, d.id);
    LeSame(c.offset, d.offset);
    LeSame(c.logicalLength, d.logicalLength);
    LeSame(c.physicalLength, d.physicalLength);
    LeSame(c.blob, d.blob);
  }

  lemma ChunkBytesCons(cs: seq<Chunk>)
    requires cs != []
    ensures ChunkBytes(cs) == ChunkRecord(cs[0]) + ChunkBytes(cs[1..])
  {
    hide Le;
  }

  lemma {:induction false} ChunkBytesInjective(cs: seq<Chunk>, ds: seq<Chunk>)
    requires (forall c <- cs :: Sized(c)) && (forall d <- ds :: Sized(d)) && ChunkBytes(cs) == ChunkBytes(ds)
    ensures |cs| == |ds| && forall i :: 0 <= i < |cs| ==> SameChunk(cs[i], ds[i])
    decreases |cs|
  {
    hide Le, ChunkBytes, ChunkRecord, Sized, SameChunk;
    NoChunkBytes();
    if cs != [] {
      FirstChunk(cs);
    }
    if ds != [] {
      FirstChunk(ds);
    }
    if cs != [] && ds != [] {
      ChunkRecordInjective(cs[0], ds[0]);
      ChunkBytesInjective(cs[1..], ds[1..]);
    }
  }

  lemma NoChunkBytes()
    ensures ChunkBytes([]) == []
  {}

  lemma FirstChunk(cs: seq<Chunk>)
    requires cs != [] && forall c <- cs :: Sized(c)
    ensures |ChunkBytes(cs)| >= 72 && ChunkBytes(cs)[..72] == ChunkRecord(cs[0]) && ChunkBytes(cs)[72..] == ChunkBytes(cs[1..])
  {
    hide ChunkBytes, ChunkRecord;
    assert cs[0] in cs;
    ChunkBytesCons(cs);
    ChunkFields(cs[0]);
  }

  /** Two manifests that are hashed alike describe the same object in the same chunks: the digest of a manifest covers
      everything but its own id, its generation and the chunks' generations and provenance. */
  lemma ManifestBytesInjective(m: Manifest, n: Manifest)
    requires (forall c <- m.chunks :: Sized(c)) && (forall c <- n.chunks :: Sized(c))
    requires m.obj < TWO_64 && n.obj < TWO_64 && m.objectGeneration < TWO_64 && n.objectGeneration < TWO_64
    requires ManifestBytes(m) == ManifestBytes(n)
    ensures m.obj == n.obj && m.objectGeneration == n.objectGeneration && m.total == n.total
    ensures |m.chunks| == |n.chunks| && forall i :: 0 <= i < |m.chunks| ==> SameChunk(m.chunks[i], n.chunks[i])
  {
    hide Le, Blob, Text, ChunkBytes, Sized, SameChunk;
    ManifestFields(m);
    ManifestFields(n);
    LeSame(m.obj, n.obj);
    LeSame(m.objectGeneration, n.objectGeneration);
    LeSame(m.total, n.total);
    ChunkBytesInjective(m.chunks, n.chunks);
  }

  /** What is hashed for a manifest: its tag, the object with its generation and size, the chunks. */
  lemma ManifestFields(m: Manifest)
    ensures var tag := Blob(Text("SFB-MANIFEST-v1"));
      var k, s := |tag|, ManifestBytes(m);
      |s| >= k + 24 && s[..k] == tag && s[k..k + 8] == Le(m.obj, 8) && s[k + 8..k + 16] == Le(m.objectGeneration, 8)
      && s[k + 16..k + 24] == Le(m.total, 8) && s[k + 24..] == ChunkBytes(m.chunks)
  {
    hide Le, Blob, Text, ChunkBytes;
  }
}
