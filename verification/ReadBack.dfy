/** What was published is what is read, until the placement is evicted. */
module ReadBack {
  import opened Bytes
  import opened Status
  import opened Model
  import opened Manifests
  import opened BlobStore
  import opened Runtime
  import opened Effects
  import opened Safety
  import L = Ledger

  // ----- Right after publish_to -----

  /** The stored chunks concatenate to the content: whatever the chunk size, and whether blobs were shared
      or written. */
  lemma ChunksRead(b: Blobs, store: Store, h: Hash, content: bytes, chunk: nat, dedupe: bool, faults: Faults)
    requires |content| < TWO_64 && chunk > 0
    ensures var w := WriteFrom(b, store, h, content, 0, chunk, dedupe, faults);
      (w.ok() && VerifyFrom(w.store, h, w.chunks, 0, faults) == Pass && NoCollision(w.store, h, content))
      ==> ReadFrom(w.store, w.chunks, 0, NO_FAULTS) == Ok(content)
  {
    hide WriteFrom, VerifyFrom, ReadFrom, NoCollision, Slices, Verified, IsCeiling;
    var w := WriteFrom(b, store, h, content, 0, chunk, dedupe, faults);
    if w.ok() && VerifyFrom(w.store, h, w.chunks, 0, faults) == Pass && NoCollision(w.store, h, content) {
      WriteSlices(b, store, h, content, 0, chunk, dedupe, faults);
      VerifyFromMeans(w.store, h, w.chunks, 0, faults);
      assert w.chunks[0..] == w.chunks && content[0..] == content;
      SlicesReadBack(w.store, h, w.chunks, 0, content, 0);
    }
  }

  /** The new placement reads as what was published. */
  lemma PublishReads(f: Fabric, g: Fabric, h: Hash, obj: Object, content: bytes, backend: Id, opts: Options,
                     faults: Faults, p: Placement)
    requires obj.id in f.catalog && Succeeded(f, g, h, obj, content, backend, opts, faults, p)
    requires opts.eagerVerify && NoCollision(g.stores[backend], h, content)
    ensures ReadById(g, p.id, NO_FAULTS) == Ok(content)
  {
    hide WriteFrom, VerifyFrom, ReadFrom, WithPlacement, NoCollision, ManifestBytes;
    ChunksRead(f.blobs, f.stores[backend], h, content, ChunkSize(obj, opts), opts.dedupe, faults);
  }

  // ----- In every later state -----

  predicate SameRecord(p: Placement, q: Placement) {
    q.(lifecycle := p.lifecycle, freshness := p.freshness) == p && (Live(q) ==> Live(p))
  }

  /** The blobs of a manifest lie in both stores, with the same bytes. */
  ghost predicate SameBlobs(s: Store, t: Store, m: Manifest) {
    forall c <- m.chunks :: c.blob in s && c.blob in t && s[c.blob] == t[c.blob]
  }

  ghost predicate SameBytes(f: Fabric, g: Fabric, p: Placement) {
    && p.manifest in f.manifests && p.manifest in g.manifests && g.manifests[p.manifest] == f.manifests[p.manifest]
    && p.backend in f.stores && p.backend in g.stores
    && SameBlobs(f.stores[p.backend], g.stores[p.backend], f.manifests[p.manifest])
  }

  /** Placements are never forgotten, evicted ones never come back, and the others keep their bytes. */
  ghost predicate Preserves(f: Fabric, g: Fabric) {
    forall id <- f.placements :: id in g.placements && SameRecord(f.placements[id], g.placements[id])
      && (Live(g.placements[id]) ==> SameBytes(f, g, f.placements[id]))
  }

  lemma PreservesTransitive(f: Fabric, g: Fabric, k: Fabric)
    requires Preserves(f, g) && Preserves(g, k)
    ensures Preserves(f, k)
  {
    forall id | id in f.placements
      ensures id in k.placements && SameRecord(f.placements[id], k.placements[id])
      ensures Live(k.placements[id]) ==> SameBytes(f, k, f.placements[id])
    {
      assert id in g.placements;
    }
  }

  /** Reading a placement that is still there gives the same answer as before, also when reads fail. */
  lemma SameRead(f: Fabric, g: Fabric, id: Id, faults: Faults)
    requires Preserves(f, g) && id in f.placements && id in g.placements && Live(g.placements[id])
    ensures ReadById(g, id, faults) == ReadById(f, id, faults)
  {
    hide ReadFrom;
    var p := f.placements[id];
    var m := f.manifests[p.manifest];
    ReadSame(f.stores[p.backend], g.stores[p.backend], m.chunks, 0, faults);
  }

  // ----- Every operation preserves -----

  lemma WritePreserves(f: Fabric, h: Hash, backend: Id, b: Blobs, store: Store, id: Id)
    requires Safe(f, h) && backend in f.stores && Grows(f.blobs, f.stores[backend], b, store)
    requires id in f.placements && Live(f.placements[id])
    ensures var p := f.placements[id];
      p.manifest in f.manifests && p.backend in f.stores
      && SameBlobs(f.stores[p.backend], f.stores[backend := store][p.backend], f.manifests[p.manifest])
  {
    hide Uses, Refs;
    var p := f.placements[id];
    assert Backed(h, f.stores, p, f.manifests);
    assert Recorded(f.blobs, f.manifests[p.manifest]);
  }

  /** Publishing keeps what is there, also when it fails half way. */
  lemma PublishPreserves(f: Fabric, h: Hash, obj: Object, content: bytes, backend: Id, opts: Options, faults: Faults)
    requires Safe(f, h) && (backend in f.stores ==> Registered(f, backend)) && obj.id in f.catalog
    ensures Preserves(f, Publish(f, h, obj, content, backend, opts, faults).1)
  {
    hide Publish, WriteFrom, VerifyFrom, BuiltManifest, WithPlacement, Safe, Grows, SameBlobs;
    PublishEffect(f, h, obj, content, backend, opts, faults);
    var g := Publish(f, h, obj, content, backend, opts, faults).1;
    BackedManifests(f, h);
    if g.stores != f.stores {
      SafeIndexed(f, h);
      WriteGrows(f.blobs, f.stores[backend], h, content, 0, ChunkSize(obj, opts), opts.dedupe, faults);
      forall id | id in f.placements && Live(f.placements[id])
        ensures SameBytes(f, g, f.placements[id])
      {
        WritePreserves(f, h, backend, g.blobs, g.stores[backend], id);
      }
    }
  }

  lemma BackedManifests(f: Fabric, h: Hash)
    requires Safe(f, h)
    ensures forall id <- f.placements ::
      f.placements[id].manifest in f.manifests && (Live(f.placements[id]) ==> SameBytes(f, f, f.placements[id]))
  {
    hide Uses, Refs, Indexed, Recorded;
    forall id | id in f.placements
      ensures f.placements[id].manifest in f.manifests
      ensures Live(f.placements[id]) ==> SameBytes(f, f, f.placements[id])
    {
      assert Backed(h, f.stores, f.placements[id], f.manifests);
    }
  }

  lemma EvictPreserves(f: Fabric, h: Hash, id: Id, faults: Faults)
    requires Safe(f, h)
    ensures Preserves(f, Evict(f, id, faults).1)
  {
    hide Safe, Evicted, SameBlobs;
    BackedManifests(f, h);
    if Evict(f, id, faults).0.Pass? {
      var g := Evict(f, id, faults).1;
      EvictedKeeps(f, h, id, faults);
      BackedManifests(g, h);
      EvictedShrinks(f, h, id, faults);
      forall q | q in f.placements && Live(g.placements[q])
        ensures SameBytes(f, g, f.placements[q])
      {
        BothStores(f.stores[f.placements[q].backend], g.stores[f.placements[q].backend], f.manifests[f.placements[q].manifest]);
      }
    }
  }

  lemma EvictedShrinks(f: Fabric, h: Hash, id: Id, faults: Faults)
    requires Safe(f, h) && id in f.placements && f.placements[id].obj in f.catalog
    ensures var g := Evicted(f, id, faults);
      g.manifests == f.manifests && g.stores.Keys == f.stores.Keys
      && forall b <- f.stores :: forall blob <- g.stores[b] :: blob in f.stores[b] && g.stores[b][blob] == f.stores[b][blob]
  {
    hide L.RemoveCommitted, EvictedEntry, DropAll, EvictedPlacement, Safe;
    var p := f.placements[id];
    if p.backend in f.stores {
      var ids := if p.manifest in f.manifests then BlobsOf(f.manifests[p.manifest].chunks) else [];
      DropAllMeans(Dropped(f.blobs.refs, f.stores[p.backend]), ids, faults);
    }
  }

  lemma BothStores(s: Store, t: Store, m: Manifest)
    requires SameBlobs(s, s, m) && SameBlobs(t, t, m) && forall blob <- t :: blob in s && t[blob] == s[blob]
    ensures SameBlobs(s, t, m)
  {}

  lemma DemotePreserves(f: Fabric, h: Hash, id: Id)
    requires Safe(f, h) && (id in f.placements ==> Live(f.placements[id]))
    ensures Preserves(f, Demoted(f, id))
  {
    hide Safe;
    BackedManifests(f, h);
  }

  lemma RegisterPreserves(f: Fabric, h: Hash, desc: Backend, tier: Tier)
    requires Safe(f, h) && desc.id !in f.stores
    ensures Preserves(f, RegisterBackend(f, desc, tier))
  {
    hide Safe;
    BackedManifests(f, h);
  }

  lemma DefinePreserves(f: Fabric, h: Hash, kind: Enum, size: nat, content: bytes, writer: Authority,
                        minReplicas: nat, priority: Enum)
    requires Safe(f, h) && |content| < TWO_64
    ensures Preserves(f, DefineObject(f, h, kind, size, content, writer, minReplicas, priority).1)
  {
    hide Safe;
    BackedManifests(f, h);
  }

  // ----- Reading an object -----

  /** A placement reads back as bytes with the object's digest. */
  ghost predicate HonestAt(f: Fabric, h: Hash, id: Id)
    requires id in f.placements
  {
    var p := f.placements[id];
    && p.obj in f.catalog && p.digest == f.catalog[p.obj].obj.digest
    && ReadById(f, id, NO_FAULTS).Ok? && h(ReadById(f, id, NO_FAULTS).value) == p.digest
  }

  ghost predicate Honest(f: Fabric, h: Hash) {
    forall id <- f.placements :: Live(f.placements[id]) ==> HonestAt(f, h, id)
  }

  /** Catalogued descriptors stay as they were defined. */
  ghost predicate SameObjects(f: Fabric, g: Fabric) {
    forall o <- f.catalog :: o in g.catalog && g.catalog[o].obj == f.catalog[o].obj
  }

  lemma HonestKept(f: Fabric, g: Fabric, h: Hash, id: Id)
    requires Honest(f, h) && Preserves(f, g) && SameObjects(f, g)
    requires id in f.placements && id in g.placements && Live(g.placements[id])
    ensures HonestAt(g, h, id)
  {
    hide ReadById;
    SameRead(f, g, id, NO_FAULTS);
  }

  /** Publishing bytes that have the descriptor's digest keeps every placement honest. */
  lemma PublishHonest(f: Fabric, h: Hash, obj: Object, content: bytes, backend: Id, opts: Options, faults: Faults)
    requires Safe(f, h) && Honest(f, h) && (backend in f.stores ==> Registered(f, backend)) && opts.eagerVerify
    requires obj.id in f.catalog && f.catalog[obj.id].obj == obj && h(content) == obj.digest
    requires var (r, g) := Publish(f, h, obj, content, backend, opts, faults);
      r.Ok? ==> backend in g.stores && NoCollision(g.stores[backend], h, content)
    ensures Honest(Publish(f, h, obj, content, backend, opts, faults).1, h)
  {
    hide Publish, Chunking, VerifyFrom, BuiltManifest, Safe, Preserves, ReadById, NewReplica, HonestAt;
    PublishEffect(f, h, obj, content, backend, opts, faults);
    PublishPreserves(f, h, obj, content, backend, opts, faults);
    var (r, g) := Publish(f, h, obj, content, backend, opts, faults);
    if r.Ok? {
      PublishReads(f, g, h, obj, content, backend, opts, faults, r.value);
      FreshHonest(g, h, r.value.id, content);
    }
    forall id | id in g.placements && Live(g.placements[id])
      ensures HonestAt(g, h, id)
    {
      if id in f.placements {
        HonestKept(f, g, h, id);
      }
    }
  }

  lemma FreshHonest(g: Fabric, h: Hash, id: Id, content: bytes)
    requires id in g.placements && ReadById(g, id, NO_FAULTS) == Ok(content) && h(content) == g.placements[id].digest
    requires g.placements[id].obj in g.catalog && g.placements[id].digest == g.catalog[g.placements[id].obj].obj.digest
    ensures HonestAt(g, h, id)
  {}

  /** The digest tells two contents apart. */
  predicate Separates(h: Hash, a: bytes, b: bytes) {
    h(a) == h(b) ==> a == b
  }

  /** Whichever AVAILABLE placement the map iteration meets first, the object reads the same. */
  lemma ReadsAgree(f: Fabric, h: Hash, obj: Id, a: Id, b: Id)
    requires Honest(f, h) && Readable(f, obj, a) && Readable(f, obj, b)
    requires forall x, y :: ReadById(f, a, NO_FAULTS) == Ok(x) && ReadById(f, b, NO_FAULTS) == Ok(y) ==> Separates(h, x, y)
    ensures ReadById(f, a, NO_FAULTS).Ok? && ReadById(f, a, NO_FAULTS) == ReadById(f, b, NO_FAULTS)
  {
    hide ReadById;
    assert HonestAt(f, h, a) && HonestAt(f, h, b);
  }

  lemma {:induction false} VerifyReads(store: Store, cs: seq<Chunk>, i: nat, faults: Faults)
    requires i <= |cs| && ReadFrom(store, cs, i, faults).Ok?
    ensures VerifyBytes(store, cs, i, faults) == ReadFrom(store, cs, i, faults)
    decreases |cs| - i
  {
    if i < |cs| {
      VerifyReads(store, cs, i + 1, faults);
    }
  }

  /** verify says yes of every placement that was not evicted. */
  lemma VerifyAgrees(f: Fabric, h: Hash, id: Id)
    requires Honest(f, h) && id in f.placements && Live(f.placements[id])
    ensures VerifyPlacement(f, h, id, NO_FAULTS) == Ok(true)
  {
    hide ReadFrom, VerifyBytes;
    assert HonestAt(f, h, id);
    var p := f.placements[id];
    VerifyReads(f.stores[p.backend], f.manifests[p.manifest].chunks, 0, NO_FAULTS);
  }
}
