/** What a publication changes, seen as one step: on success one placement with its manifest, on failure
    nothing a reader or the catalog can see. */
module Effects {
  import opened Bytes
  import opened Status
  import opened Model
  import opened Manifests
  import opened BlobStore
  import opened Runtime
  import L = Ledger

  ghost predicate Placeable(f: Fabric, p: Placement) {
    p.backend in f.descriptors && p.tier in f.tiers
  }

  /** Placement p of the object was added under manifest man. */
  ghost predicate Published(f: Fabric, g: Fabric, obj: Object, p: Placement, man: Manifest)
    requires obj.id in f.catalog && Placeable(f, p)
  {
    && p.id == f.ids.placement && p.replica == f.ids.replica && p.manifest == man.id == f.ids.manifest
    && p.obj == obj.id && p.lifecycle == AVAILABLE && p.physicalSize == obj.logicalSize > 0 && p.digest == obj.digest
    && p.id !in f.placements && man.id !in f.manifests
    && g == f.(blobs := g.blobs, stores := g.stores, ledger := g.ledger,
               ids := Counters(f.ids.obj, f.ids.manifest + 1, f.ids.replica + 1, f.ids.placement + 1),
               manifests := f.manifests[man.id := man], placements := f.placements[p.id := p],
               catalog := f.catalog[obj.id := WithPlacement(f, f.catalog[obj.id], p)])
    && p.backend in f.stores && p.backend in g.stores && g.stores == f.stores[p.backend := g.stores[p.backend]]
  }

  /** Only blobs, counters, the ledger's history, and unused manifests may differ. */
  ghost predicate Refused(f: Fabric, g: Fabric) {
    && g == f.(blobs := g.blobs, stores := g.stores, ledger := g.ledger, ids := g.ids, manifests := g.manifests)
    && g.stores.Keys == f.stores.Keys
    && f.ids.obj == g.ids.obj && f.ids.manifest <= g.ids.manifest
    && f.ids.placement <= g.ids.placement && g.ids.replica - f.ids.replica == g.ids.placement - f.ids.placement
    && (forall m <- f.manifests :: m in g.manifests && g.manifests[m] == f.manifests[m])
    && (forall m <- g.manifests :: m in f.manifests || (m == g.manifests[m].id && f.ids.manifest <= m < g.ids.manifest))
  }

  lemma RecordEffect(f: Fabric, obj: Object, backend: Id, opts: Options, auth: Authority, reservation: Id, man: Manifest)
    requires Registered(f, backend) && obj.id in f.catalog
    ensures var (r, g) := Record(f, obj, backend, opts, auth, reservation, man);
      if r.Ok? then
        var p := NewPlacement(f, obj, backend, opts.required, auth, man.id);
        && r.value == p && p.id !in f.placements && man.id !in f.manifests
        && L.Commit(f.ledger, reservation, p.id) == (Pass, g.ledger)
        && g == f.(ledger := g.ledger, manifests := f.manifests[man.id := man],
                   placements := f.placements[p.id := p],
                   ids := f.ids.(placement := f.ids.placement + 1, replica := f.ids.replica + 1),
                   catalog := f.catalog[obj.id := WithPlacement(f, f.catalog[obj.id], p)])
      else
        && g == f.(ids := g.ids, manifests := g.manifests)
        && (g.manifests == f.manifests || (g.manifests == f.manifests[man.id := man] && man.id !in f.manifests))
        && g.ids.obj == f.ids.obj && g.ids.manifest == f.ids.manifest
        && f.ids.placement <= g.ids.placement && g.ids.replica - f.ids.replica == g.ids.placement - f.ids.placement
  {
    hide WithPlacement, L.Commit, NewPlacement;
    var p := NewPlacement(f, obj, backend, opts.required, auth, man.id);
    L.CommitOutcome(f.ledger, reservation, p.id);
  }

  /** Recording on top of the written chunks. */
  lemma WrittenEffect(f: Fabric, obj: Object, backend: Id, opts: Options, auth: Authority, reservation: Id,
                      w: Written, man: Manifest)
    requires Registered(f, backend) && obj.id in f.catalog && obj.logicalSize > 0 && man.id == f.ids.manifest
    ensures var (r, g) := Record(WrittenState(f, backend, w), obj, backend, opts, auth, reservation, man);
      g.blobs == w.blobs && g.stores == f.stores[backend := w.store] &&
      if r.Ok? then
        && r.value.backend == backend && r.value.durabilityReplicas == Copies(obj, opts)
        && Placeable(f, r.value) && Published(f, g, obj, r.value, man)
        && L.Commit(f.ledger, reservation, r.value.id) == (Pass, g.ledger)
      else Refused(f, g) && g.ledger == f.ledger
  {
    hide Record, WithPlacement, L.Commit, PlacementKey;
    var g := WrittenState(f, backend, w);
    RecordEffect(g, obj, backend, opts, auth, reservation, man);
    var p := NewPlacement(g, obj, backend, opts.required, auth, man.id);
    SameEntry(f, g, f.catalog[obj.id], p);
  }

  /** Everything up to the record leaves catalog, placements, manifests and ledger alone. */
  lemma PublishReservedEffect(f: Fabric, h: Hash, obj: Object, content: bytes, backend: Id, opts: Options,
                              faults: Faults, auth: Authority, reservation: Id)
    requires |content| == obj.logicalSize > 0 && Registered(f, backend) && obj.id in f.catalog
    ensures var (r, g) := PublishReserved(f, h, obj, content, backend, opts, faults, auth, reservation);
      var w := WriteFrom(f.blobs, f.stores[backend], h, content, 0, ChunkSize(obj, opts), opts.dedupe, faults);
      g.blobs == w.blobs && g.stores == f.stores[backend := w.store] &&
      if r.Ok? then
        var man := BuiltManifest(f.ids.manifest, h, obj, w.chunks);
        && r.value.backend == backend && r.value.durabilityReplicas == Copies(obj, opts)
        && Placeable(f, r.value) && Published(f, g, obj, r.value, man)
        && L.Commit(f.ledger, reservation, r.value.id) == (Pass, g.ledger)
        && w.ok() && (opts.eagerVerify ==> VerifyFrom(w.store, h, w.chunks, 0, faults) == Pass)
      else Refused(f, g) && g.ledger == f.ledger
  {
    hide Record, Published, WithPlacement, WriteFrom, VerifyFrom, Validation, ManifestBytes, L.Commit;
    var w := WriteFrom(f.blobs, f.stores[backend], h, content, 0, ChunkSize(obj, opts), opts.dedupe, faults);
    WrittenEffect(f, obj, backend, opts, auth, reservation, w, BuiltManifest(f.ids.manifest, h, obj, w.chunks));
  }

  /** The number of copies a publication asks for. */
  function Copies(obj: Object, opts: Options): nat {
    Max(opts.required, Max(obj.minReplicas, 1))
  }

  function ChunkSize(obj: Object, opts: Options): nat {
    if opts.chunkSize == 0 then obj.logicalSize else opts.chunkSize
  }

  /** The state once the chunks are written. */
  function WrittenState(f: Fabric, backend: Id, w: Written): Fabric
    requires backend in f.stores
  {
    f.(blobs := w.blobs, stores := f.stores[backend := w.store], ids := f.ids.(manifest := f.ids.manifest + 1))
  }

  lemma SameEntry(f: Fabric, g: Fabric, e: Entry, p: Placement)
    requires Placeable(f, p) && g.descriptors == f.descriptors && g.tiers == f.tiers
    ensures WithPlacement(g, e, p) == WithPlacement(f, e, p)
  {
    assert NewReplica(f, p) == NewReplica(g, p);
  }

  /** The chunks a publication writes. */
  function Chunking(f: Fabric, h: Hash, obj: Object, content: bytes, backend: Id, opts: Options, faults: Faults): Written
    requires |content| == obj.logicalSize > 0 && backend in f.stores
  {
    WriteFrom(f.blobs, f.stores[backend], h, content, 0, ChunkSize(obj, opts), opts.dedupe, faults)
  }

  /** Placement p was added over freshly written, verified chunks. */
  ghost predicate Succeeded(f: Fabric, g: Fabric, h: Hash, obj: Object, content: bytes, backend: Id, opts: Options,
                            faults: Faults, p: Placement)
    requires obj.id in f.catalog
  {
    && |content| == obj.logicalSize > 0 && Registered(f, backend)
    && p.backend == backend && p.durabilityReplicas == Copies(obj, opts) && Placeable(f, p)
    && var w := Chunking(f, h, obj, content, backend, opts, faults);
       w.ok() && g.blobs == w.blobs && g.stores == f.stores[backend := w.store]
       && Published(f, g, obj, p, BuiltManifest(f.ids.manifest, h, obj, w.chunks))
       && (opts.eagerVerify ==> VerifyFrom(w.store, h, w.chunks, 0, faults) == Pass)
  }

  /** What a publication does to the blobs, whether it succeeds or not. */
  ghost predicate Stored(f: Fabric, g: Fabric, h: Hash, obj: Object, content: bytes, backend: Id, opts: Options, faults: Faults) {
    || (g.blobs == f.blobs && g.stores == f.stores)
    || (|content| == obj.logicalSize > 0 && backend in f.stores
        && var w := Chunking(f, h, obj, content, backend, opts, faults);
           g.blobs == w.blobs && g.stores == f.stores[backend := w.store])
  }

  lemma UnchangedEffect(f: Fabric, h: Hash, obj: Object, content: bytes, backend: Id, opts: Options, faults: Faults)
    ensures forall l :: Stored(f, f.(ledger := l), h, obj, content, backend, opts, faults) && Refused(f, f.(ledger := l))
  {}

  /** publish_to as one step. */
  lemma PublishEffect(f: Fabric, h: Hash, obj: Object, content: bytes, backend: Id, opts: Options, faults: Faults)
    requires (backend in f.stores ==> Registered(f, backend)) && obj.id in f.catalog
    ensures var (r, g) := Publish(f, h, obj, content, backend, opts, faults);
      Stored(f, g, h, obj, content, backend, opts, faults)
      && if r.Ok? then Succeeded(f, g, h, obj, content, backend, opts, faults, r.value) else Refused(f, g)
  {
    hide PublishReserved, Succeeded, Stored, L.Reserve, L.Release;
    UnchangedEffect(f, h, obj, content, backend, opts, faults);
    if |content| == obj.logicalSize && backend in f.stores {
      match ActingAuthority(f, opts.authority)
      case Err(_) =>
      case Ok(auth) =>
        L.ReserveActive(f.ledger, backend, obj.logicalSize, auth.generation, auth.worker);
        var (r, l) := L.Reserve(f.ledger, backend, obj.logicalSize, auth.generation, auth.worker);
        if r.Ok? {
          OverLedger(f, l, h, obj, content, backend, opts, faults, auth, r.value);
        }
    }
  }

  /** Taking out the reservation before and releasing it after only touches the ledger. */
  lemma OverLedger(f: Fabric, l: L.Ledger, h: Hash, obj: Object, content: bytes, backend: Id, opts: Options,
                   faults: Faults, auth: Authority, res: L.Reservation)
    requires |content| == obj.logicalSize > 0 && Registered(f, backend) && obj.id in f.catalog
    ensures var (r, k) := PublishReserved(f.(ledger := l), h, obj, content, backend, opts, faults, auth, res.id);
      var g := k.(ledger := L.Release(k.ledger, res.id, res.generation).1);
      Stored(f, g, h, obj, content, backend, opts, faults)
      && if r.Ok? then Succeeded(f, g, h, obj, content, backend, opts, faults, r.value) else Refused(f, g)
  {
    hide PublishReserved, WriteFrom, VerifyFrom, BuiltManifest, WithPlacement, L.Release;
    var before := f.(ledger := l);
    PublishReservedEffect(before, h, obj, content, backend, opts, faults, auth, res.id);
    SameEntryAll(f, before, obj);
    var (r, k) := PublishReserved(before, h, obj, content, backend, opts, faults, auth, res.id);
    if r.Ok? {
      var g := k.(ledger := L.Release(k.ledger, res.id, res.generation).1);
      assert g.stores == f.stores[backend := g.stores[backend]];
    }
  }

  lemma SameEntryAll(f: Fabric, g: Fabric, obj: Object)
    requires obj.id in f.catalog && g.descriptors == f.descriptors && g.tiers == f.tiers
    ensures forall p :: Placeable(f, p) ==> WithPlacement(g, f.catalog[obj.id], p) == WithPlacement(f, f.catalog[obj.id], p)
  {
    hide WithPlacement;
    forall p | Placeable(f, p)
      ensures WithPlacement(g, f.catalog[obj.id], p) == WithPlacement(f, f.catalog[obj.id], p)
    {
      SameEntry(f, g, f.catalog[obj.id], p);
    }
  }
}
