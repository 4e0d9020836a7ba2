/** Blob safety: what keeps the bytes of every placement that has not been evicted. */
module Safety {
  import opened Bytes
  import opened Status
  import opened Model
  import opened Manifests
  import opened BlobStore
  import opened Sums
  import opened Runtime
  import opened Effects
  import L = Ledger

  // ----- The invariant -----

  /** Occurrences of a blob in the manifest of one placement, unless it was evicted. */
  ghost function UseTerm(p: Placement, manifests: map<Id, Manifest>, blob: Id): nat {
    if Live(p) && p.manifest in manifests then Count(BlobsOf(manifests[p.manifest].chunks), blob) else 0
  }

  ghost function UseTerms(ps: map<Id, Placement>, manifests: map<Id, Manifest>, blob: Id): map<Id, nat> {
    map p | p in ps :: UseTerm(ps[p], manifests, blob)
  }

  /** Chunk occurrences of a blob in the manifests of all placements not evicted. */
  ghost function Uses(ps: map<Id, Placement>, manifests: map<Id, Manifest>, blob: Id): nat {
    Sum(UseTerms(ps, manifests, blob))
  }

  /** Every chunk of a stored manifest names a blob recorded with the chunk's digest. */
  ghost predicate Recorded(b: Blobs, m: Manifest) {
    forall c <- m.chunks :: c.blob in b.digests && b.digests[c.blob] == c.digest
  }

  /** A placement has a manifest, and unless evicted every blob it needs is on its backend, with the digest. */
  ghost predicate Backed(h: Hash, stores: map<Id, Store>, p: Placement, manifests: map<Id, Manifest>) {
    p.manifest in manifests
    && (Live(p) ==> p.backend in stores && Verified(stores[p.backend], h, manifests[p.manifest].chunks))
  }

  ghost predicate Parts(h: Hash, b: Blobs, stores: map<Id, Store>, ps: map<Id, Placement>, manifests: map<Id, Manifest>) {
    && Indexed(b)
    && (forall m <- manifests :: manifests[m].id == m && Recorded(b, manifests[m]))
    && (forall p <- ps :: ps[p].id == p && Backed(h, stores, ps[p], manifests))
    && (forall p, q :: p in ps && q in ps && p != q ==> ps[p].manifest != ps[q].manifest)
    && (forall blob :: Uses(ps, manifests, blob) <= Refs(b, blob))
  }

  ghost predicate Safe(f: Fabric, h: Hash) {
    Parts(h, f.blobs, f.stores, f.placements, f.manifests)
  }

  /** The counts are exact, not only sufficient. */
  ghost predicate Exact(f: Fabric) {
    forall blob :: Uses(f.placements, f.manifests, blob) == Refs(f.blobs, blob)
  }

  // ----- Uses under the changes operations make -----

  lemma UsesUpdate(ps: map<Id, Placement>, manifests: map<Id, Manifest>, id: Id, p: Placement, blob: Id)
    ensures Uses(ps[id := p], manifests, blob)
         == Uses(ps, manifests, blob) - (if id in ps then UseTerm(ps[id], manifests, blob) else 0) + UseTerm(p, manifests, blob)
  {
    hide UseTerm;
    assert UseTerms(ps[id := p], manifests, blob) == UseTerms(ps, manifests, blob)[id := UseTerm(p, manifests, blob)];
    SumUpdate(UseTerms(ps, manifests, blob), id, UseTerm(p, manifests, blob));
  }

  lemma UsesOfOne(ps: map<Id, Placement>, manifests: map<Id, Manifest>, id: Id, blob: Id)
    requires id in ps
    ensures UseTerm(ps[id], manifests, blob) <= Uses(ps, manifests, blob)
  {
    SumTerm(UseTerms(ps, manifests, blob), id);
  }

  /** A manifest no placement refers to makes no difference. */
  lemma UsesNewManifest(ps: map<Id, Placement>, manifests: map<Id, Manifest>, m: Manifest, blob: Id)
    requires m.id !in manifests && forall p <- ps :: ps[p].manifest in manifests
    ensures Uses(ps, manifests[m.id := m], blob) == Uses(ps, manifests, blob)
  {
    assert UseTerms(ps, manifests[m.id := m], blob) == UseTerms(ps, manifests, blob);
  }

  // ----- Writing -----

  /** Growing the store of one backend keeps everything in place. */
  lemma GrowthKeeps(f: Fabric, g: Fabric, h: Hash, backend: Id, b: Blobs, store: Store)
    requires Safe(f, h) && backend in f.stores && Indexed(b) && Grows(f.blobs, f.stores[backend], b, store)
    requires g.blobs == b && g.stores == f.stores[backend := store]
    requires g.placements == f.placements && g.manifests == f.manifests
    ensures Safe(g, h)
  {
    hide Uses, Refs;
    forall m | m in g.manifests
      ensures Recorded(b, g.manifests[m])
    {
      assert Recorded(f.blobs, f.manifests[m]);
    }
    forall p | p in g.placements
      ensures Backed(h, g.stores, g.placements[p], g.manifests)
    {
      BackedGrowth(f, h, backend, b, store, p);
    }
  }

  lemma BackedGrowth(f: Fabric, h: Hash, backend: Id, b: Blobs, store: Store, p: Id)
    requires Safe(f, h) && backend in f.stores && Grows(f.blobs, f.stores[backend], b, store) && p in f.placements
    ensures Backed(h, f.stores[backend := store], f.placements[p], f.manifests)
  {
    hide Uses, Refs;
    var q := f.placements[p];
    assert Backed(h, f.stores, q, f.manifests);
    assert Recorded(f.blobs, f.manifests[q.manifest]);
  }

  // ----- Recording -----

  /** A verified manifest and its placement may be added once the counts cover them. */
  lemma RecordKeeps(f: Fabric, h: Hash, obj: Object, backend: Id, opts: Options, auth: Authority, reservation: Id, man: Manifest)
    requires Safe(f, h) && Registered(f, backend)
    requires Recorded(f.blobs, man) && Verified(f.stores[backend], h, man.chunks)
    requires forall blob :: Uses(f.placements, f.manifests, blob) + Count(BlobsOf(man.chunks), blob) <= Refs(f.blobs, blob)
    ensures var (r, g) := Record(f, obj, backend, opts, auth, reservation, man);
      Safe(g, h) && g.blobs == f.blobs && g.stores == f.stores && (r.Ok? ==> forall blob ::
        Uses(g.placements, g.manifests, blob) == Uses(f.placements, f.manifests, blob) + Count(BlobsOf(man.chunks), blob))
  {
    hide Uses, Refs, Recorded, Verified, WithPlacement, NewPlacement, L.Commit;
    if man.id !in f.manifests {
      var manifests := f.manifests[man.id := man];
      var p := NewPlacement(f, obj, backend, opts.required, auth, man.id);
      forall blob
        ensures Uses(f.placements, manifests, blob) == Uses(f.placements, f.manifests, blob)
      {
        UsesNewManifest(f.placements, f.manifests, man, blob);
      }
      ManifestAdded(f, h, man);
      if p.id !in f.placements {
        forall blob
          ensures Uses(f.placements[p.id := p], manifests, blob)
               == Uses(f.placements, f.manifests, blob) + Count(BlobsOf(man.chunks), blob)
        {
          UsesUpdate(f.placements, manifests, p.id, p, blob);
        }
        assert Backed(h, f.stores, p, manifests);
        PlacementAdded(f, h, man, p);
      }
    }
  }

  lemma ManifestAdded(f: Fabric, h: Hash, man: Manifest)
    requires Safe(f, h) && man.id !in f.manifests && Recorded(f.blobs, man)
    requires forall blob :: Uses(f.placements, f.manifests[man.id := man], blob) == Uses(f.placements, f.manifests, blob)
    ensures Parts(h, f.blobs, f.stores, f.placements, f.manifests[man.id := man])
  {
    hide Uses, Refs, Recorded, Verified, Indexed;
    forall p | p in f.placements
      ensures Backed(h, f.stores, f.placements[p], f.manifests[man.id := man])
    {
      assert Backed(h, f.stores, f.placements[p], f.manifests);
    }
  }

  lemma PlacementAdded(f: Fabric, h: Hash, man: Manifest, p: Placement)
    requires Safe(f, h) && man.id !in f.manifests && p.id !in f.placements && p.manifest == man.id
    requires Parts(h, f.blobs, f.stores, f.placements, f.manifests[man.id := man])
    requires Backed(h, f.stores, p, f.manifests[man.id := man])
    requires forall blob :: Uses(f.placements[p.id := p], f.manifests[man.id := man], blob) <= Refs(f.blobs, blob)
    ensures Parts(h, f.blobs, f.stores, f.placements[p.id := p], f.manifests[man.id := man])
  {
    hide Uses, Refs, Recorded, Verified, Indexed;
    forall q | q in f.placements
      ensures f.placements[q].manifest != man.id
    {
      assert Backed(h, f.stores, f.placements[q], f.manifests);
    }
  }

  // ----- publish_to -----

  /** A publication, whether it succeeds or fails at any point, keeps every blob in use. Its own blobs are
      counted exactly when it succeeds. */
  lemma PublishKeeps(f: Fabric, h: Hash, obj: Object, content: bytes, backend: Id, opts: Options, faults: Faults)
    requires Safe(f, h) && (backend in f.stores ==> Registered(f, backend)) && opts.eagerVerify
    ensures var (r, g) := Publish(f, h, obj, content, backend, opts, faults);
      Safe(g, h) && (r.Ok? && Exact(f) ==> Exact(g))
  {
    hide Parts, Exact, PublishReserved, L.Reserve, L.Release;
    if |content| == obj.logicalSize && backend in f.stores {
      match ActingAuthority(f, opts.authority)
      case Err(_) =>
      case Ok(auth) =>
        L.ReserveActive(f.ledger, backend, obj.logicalSize, auth.generation, auth.worker);
        var (r, l) := L.Reserve(f.ledger, backend, obj.logicalSize, auth.generation, auth.worker);
        if r.Ok? {
          ExactParts(f, f.(ledger := l));
          PublishReservedKeeps(f.(ledger := l), h, obj, content, backend, opts, faults, auth, r.value.id);
          var (res, g) := PublishReserved(f.(ledger := l), h, obj, content, backend, opts, faults, auth, r.value.id);
          ExactParts(g, g.(ledger := L.Release(g.ledger, r.value.id, r.value.generation).1));
        }
    }
  }

  lemma ExactParts(f: Fabric, g: Fabric)
    requires f.placements == g.placements && f.manifests == g.manifests && f.blobs == g.blobs
    ensures Exact(f) <==> Exact(g)
  {}

  lemma WriteKeeps(f: Fabric, h: Hash, content: bytes, backend: Id, chunk: nat, dedupe: bool, faults: Faults)
    requires Safe(f, h) && |content| < TWO_64 && chunk > 0 && backend in f.stores
    ensures var w := WriteFrom(f.blobs, f.stores[backend], h, content, 0, chunk, dedupe, faults);
      Safe(WrittenState(f, backend, w), h) && (w.ok() ==> Counted(f.blobs, w) && Named(w))
  {
    hide Parts, WriteFrom, Counted, Named;
    var w := WriteFrom(f.blobs, f.stores[backend], h, content, 0, chunk, dedupe, faults);
    assert Indexed(f.blobs) by { SafeIndexed(f, h); }
    WriteGrows(f.blobs, f.stores[backend], h, content, 0, chunk, dedupe, faults);
    GrowthKeeps(f, WrittenState(f, backend, w), h, backend, w.blobs, w.store);
  }

  lemma SafeIndexed(f: Fabric, h: Hash)
    requires Safe(f, h)
    ensures Indexed(f.blobs) && forall blob :: Uses(f.placements, f.manifests, blob) <= Refs(f.blobs, blob)
  {}

  lemma CountsCover(f: Fabric, h: Hash, w: Written, m: Manifest)
    requires Safe(f, h) && Counted(f.blobs, w) && Named(w) && m.chunks == w.chunks
    ensures Recorded(w.blobs, m)
    ensures forall blob :: Uses(f.placements, f.manifests, blob) + Count(BlobsOf(w.chunks), blob) <= Refs(w.blobs, blob)
    ensures Exact(f) ==> forall blob ::
      Uses(f.placements, f.manifests, blob) + Count(BlobsOf(w.chunks), blob) == Refs(w.blobs, blob)
  {
    hide Uses, Refs, Parts;
    SafeIndexed(f, h);
  }

  lemma PublishReservedKeeps(f: Fabric, h: Hash, obj: Object, content: bytes, backend: Id, opts: Options,
                             faults: Faults, auth: Authority, reservation: Id)
    requires Safe(f, h) && |content| == obj.logicalSize > 0 && Registered(f, backend) && opts.eagerVerify
    ensures var (r, g) := PublishReserved(f, h, obj, content, backend, opts, faults, auth, reservation);
      Safe(g, h) && (r.Ok? && Exact(f) ==> Exact(g))
  {
    hide Record, WriteFrom, VerifyFrom, Validation, ManifestBytes, Uses, Refs, Parts, Counted, Named, Recorded, Verified;
    var w := WriteFrom(f.blobs, f.stores[backend], h, content, 0, ChunkSize(obj, opts), opts.dedupe, faults);
    var g := WrittenState(f, backend, w);
    WriteKeeps(f, h, content, backend, ChunkSize(obj, opts), opts.dedupe, faults);
    if w.ok() && VerifyFrom(w.store, h, w.chunks, 0, faults).Pass? {
      var man := BuiltManifest(f.ids.manifest, h, obj, w.chunks);
      VerifyFromMeans(w.store, h, w.chunks, 0, faults);
      assert w.chunks[0..] == w.chunks;
      CountsCover(f, h, w, man);
      RecordKeeps(g, h, obj, backend, opts, auth, reservation, man);
    }
  }

  // ----- evict -----

  /** Eviction gives back one placement's references; a blob any other placement needs keeps a reference and
      so its bytes. */
  lemma EvictKeeps(f: Fabric, h: Hash, id: Id, faults: Faults)
    requires Safe(f, h)
    ensures var (o, g) := Evict(f, id, faults);
      Safe(g, h) && (Exact(f) ==> Exact(g))
      && (forall q :: q in g.placements && Live(g.placements[q]) ==> q in f.placements && g.placements[q] == f.placements[q])
  {
    hide Uses, Parts, Evicted;
    if Evict(f, id, faults).0.Pass? {
      EvictedKeeps(f, h, id, faults);
    }
  }

  lemma EvictedKeeps(f: Fabric, h: Hash, id: Id, faults: Faults)
    requires Safe(f, h) && id in f.placements && Live(f.placements[id]) && f.placements[id].obj in f.catalog
    ensures var g := Evicted(f, id, faults);
      Safe(g, h) && (Exact(f) ==> Exact(g)) && g.placements == f.placements[id := EvictedPlacement(f.placements[id])]
  {
    hide Uses, L.RemoveCommitted, EvictedEntry, DropAll;
    var g := Evicted(f, id, faults);
    var p := f.placements[id];
    assert Backed(h, f.stores, p, f.manifests);
    var cs := f.manifests[p.manifest].chunks;
    var store := f.stores[p.backend];
    var d := DropAll(Dropped(f.blobs.refs, store), BlobsOf(cs), faults);
    DropAllMeans(Dropped(f.blobs.refs, store), BlobsOf(cs), faults);
    forall blob
      ensures Uses(g.placements, g.manifests, blob) == Uses(f.placements, f.manifests, blob) - Count(BlobsOf(cs), blob)
      ensures Uses(g.placements, g.manifests, blob) <= Refs(g.blobs, blob)
      ensures Exact(f) ==> Uses(g.placements, g.manifests, blob) == Refs(g.blobs, blob)
      ensures Refs(g.blobs, blob) == RefIn(d.refs, blob)
    {
      UsesUpdate(f.placements, f.manifests, id, EvictedPlacement(p), blob);
      UsesOfOne(f.placements, f.manifests, id, blob);
      assert Uses(f.placements, f.manifests, blob) <= Refs(f.blobs, blob) == RefIn(f.blobs.refs, blob);
    }
    forall q | q in g.placements
      ensures Backed(h, g.stores, g.placements[q], g.manifests)
    {
      SurvivorBacked(f, g, h, id, q, d);
    }
    forall m | m in g.manifests
      ensures Recorded(g.blobs, g.manifests[m])
    {
      assert Recorded(f.blobs, f.manifests[m]);
    }
  }

  /** The placements that stay lose nothing. */
  lemma SurvivorBacked(f: Fabric, g: Fabric, h: Hash, id: Id, q: Id, d: Dropped)
    requires Safe(f, h) && id in f.placements && q in f.placements && g.manifests == f.manifests
    requires g.placements == f.placements[id := EvictedPlacement(f.placements[id])]
    requires f.placements[id].backend in f.stores && g.stores == f.stores[f.placements[id].backend := d.store]
    requires forall blob :: Uses(g.placements, g.manifests, blob) <= RefIn(d.refs, blob)
    requires forall blob :: blob in d.store ==>
      blob in f.stores[f.placements[id].backend] && d.store[blob] == f.stores[f.placements[id].backend][blob]
    requires forall blob :: blob in f.stores[f.placements[id].backend] && RefIn(d.refs, blob) > 0 ==> blob in d.store
    ensures Backed(h, g.stores, g.placements[q], g.manifests)
  {
    hide Uses, Refs, Indexed, Recorded;
    var p := g.placements[q];
    assert Backed(h, f.stores, f.placements[q], f.manifests);
    if Live(p) && p.backend == f.placements[id].backend {
      forall c | c in g.manifests[p.manifest].chunks
        ensures c.blob in d.store && h(d.store[c.blob]) == c.digest
      {
        CountPositive(g.manifests[p.manifest].chunks, c);
        UsesOfOne(g.placements, g.manifests, q, c.blob);
      }
    }
  }

  // ----- The other operations -----

  /** move demotes a source that still has its bytes, and it keeps them. */
  lemma DemoteKeeps(f: Fabric, h: Hash, id: Id)
    requires Safe(f, h) && (id in f.placements ==> Live(f.placements[id]))
    ensures Safe(Demoted(f, id), h) && (Exact(f) ==> Exact(Demoted(f, id)))
  {
    hide Uses, Refs, Indexed, Recorded, Verified;
    if id in f.placements {
      var g := Demoted(f, id);
      forall blob
        ensures Uses(g.placements, g.manifests, blob) == Uses(f.placements, f.manifests, blob)
      {
        UsesUpdate(f.placements, f.manifests, id, g.placements[id], blob);
      }
      forall q | q in g.placements
        ensures Backed(h, g.stores, g.placements[q], g.manifests)
      {
        assert Backed(h, f.stores, f.placements[q], f.manifests);
      }
    }
  }

  /** The placement's blobs lie verified on its backend, and the counts would cover one more use of them. */
  ghost predicate Spare(f: Fabric, h: Hash, id: Id)
    requires id in f.placements && f.placements[id].manifest in f.manifests
  {
    var p := f.placements[id];
    var cs := f.manifests[p.manifest].chunks;
    && p.backend in f.stores && Verified(f.stores[p.backend], h, cs)
    && forall blob :: Uses(f.placements, f.manifests, blob) + Count(BlobsOf(cs), blob) <= Refs(f.blobs, blob)
  }

  /** Marking a placement STALE keeps blob safety exactly when it was not evicted, or its blobs are still there with
      references to spare: an evicted one counts again. */
  lemma DemoteSafeIff(f: Fabric, h: Hash, id: Id)
    requires Safe(f, h) && id in f.placements
    ensures f.placements[id].manifest in f.manifests
    ensures Safe(Demoted(f, id), h) <==> Live(f.placements[id]) || Spare(f, h, id)
  {
    hide Uses, Refs, Indexed, Recorded, Verified;
    assert Backed(h, f.stores, f.placements[id], f.manifests);
    if Live(f.placements[id]) {
      DemoteKeeps(f, h, id);
    } else {
      RevivedSafeIff(f, h, id);
    }
  }

  lemma RevivedSafeIff(f: Fabric, h: Hash, id: Id)
    requires Safe(f, h) && id in f.placements && !Live(f.placements[id]) && f.placements[id].manifest in f.manifests
    ensures Safe(Demoted(f, id), h) <==> Spare(f, h, id)
  {
    hide Uses, Refs, Indexed, Recorded, Verified;
    var g := Demoted(f, id);
    var cs := f.manifests[f.placements[id].manifest].chunks;
    forall blob
      ensures Uses(g.placements, g.manifests, blob) == Uses(f.placements, f.manifests, blob) + Count(BlobsOf(cs), blob)
    {
      UsesUpdate(f.placements, f.manifests, id, g.placements[id], blob);
    }
    forall q | q in g.placements && q != id
      ensures Backed(h, g.stores, g.placements[q], g.manifests)
    {
      assert Backed(h, f.stores, f.placements[q], f.manifests);
    }
    if Safe(g, h) {
      assert Backed(h, g.stores, g.placements[id], g.manifests);
    }
  }

  /** Exact counts leave nothing to spare. */
  lemma ExactSparesNone(f: Fabric, h: Hash, id: Id)
    requires Exact(f) && id in f.placements
    requires f.placements[id].manifest in f.manifests && f.manifests[f.placements[id].manifest].chunks != []
    ensures !Spare(f, h, id)
  {
    hide Uses, Refs, Verified;
    var cs := f.manifests[f.placements[id].manifest].chunks;
    CountPositive(cs, cs[0]);
  }

  /** A publication takes as many references as its placement uses, so what there was to spare stays. */
  lemma SpareKept(f: Fabric, g: Fabric, h: Hash, obj: Object, content: bytes, backend: Id, opts: Options, faults: Faults,
                  p: Placement, id: Id)
    requires Safe(f, h) && obj.id in f.catalog && Succeeded(f, g, h, obj, content, backend, opts, faults, p)
    requires |content| < TWO_64 && id in f.placements && f.placements[id].manifest in f.manifests
    ensures id in g.placements && g.placements[id] == f.placements[id] && f.placements[id].manifest in g.manifests
    ensures Spare(g, h, id) <==> Spare(f, h, id)
  {
    hide Uses, Refs, Parts, Grows, Indexed, Verified, Counted, Named, WriteFrom, VerifyFrom, ManifestBytes, WithPlacement;
    var chunk := ChunkSize(obj, opts);
    SafeIndexed(f, h);
    WriteGrows(f.blobs, f.stores[backend], h, content, 0, chunk, opts.dedupe, faults);
    var w := Chunking(f, h, obj, content, backend, opts, faults);
    PublishedUses(f, g, h, obj, p, BuiltManifest(f.ids.manifest, h, obj, w.chunks));
    CountedRefs(f.blobs, w);
    VerifiedKept(f, h, f.placements[id].manifest, backend, w);
  }

  lemma CountedRefs(b: Blobs, w: Written)
    requires Counted(b, w)
    ensures forall id :: Refs(w.blobs, id) == Refs(b, id) + Count(BlobsOf(w.chunks), id)
  {}

  lemma PublishedUses(f: Fabric, g: Fabric, h: Hash, obj: Object, p: Placement, man: Manifest)
    requires Safe(f, h) && obj.id in f.catalog && Placeable(f, p) && Published(f, g, obj, p, man)
    ensures forall blob ::
      Uses(g.placements, g.manifests, blob) == Uses(f.placements, f.manifests, blob) + Count(BlobsOf(man.chunks), blob)
  {
    hide Uses, Refs, Indexed, Recorded, Verified, WithPlacement;
    forall q | q in f.placements
      ensures f.placements[q].manifest in f.manifests
    {
      assert Backed(h, f.stores, f.placements[q], f.manifests);
    }
    forall blob
      ensures Uses(g.placements, g.manifests, blob) == Uses(f.placements, f.manifests, blob) + Count(BlobsOf(man.chunks), blob)
    {
      UsesNewManifest(f.placements, f.manifests, man, blob);
      UsesUpdate(f.placements, g.manifests, p.id, p, blob);
    }
  }

  /** Writing to a backend changes nothing about the blobs of a recorded manifest, on any backend. */
  lemma VerifiedKept(f: Fabric, h: Hash, m: Id, backend: Id, w: Written)
    requires Safe(f, h) && m in f.manifests && backend in f.stores && Grows(f.blobs, f.stores[backend], w.blobs, w.store)
    ensures Verified(w.store, h, f.manifests[m].chunks) <==> Verified(f.stores[backend], h, f.manifests[m].chunks)
  {
    hide Uses, Refs;
    assert Recorded(f.blobs, f.manifests[m]);
  }

  lemma RegisterKeeps(f: Fabric, h: Hash, desc: Backend, tier: Tier)
    requires Safe(f, h) && desc.id !in f.stores
    ensures Safe(RegisterBackend(f, desc, tier), h)
  {
    hide Uses, Refs, Indexed, Recorded, Verified;
    var g := RegisterBackend(f, desc, tier);
    forall q | q in g.placements
      ensures Backed(h, g.stores, g.placements[q], g.manifests)
    {
      assert Backed(h, f.stores, f.placements[q], f.manifests);
    }
  }

  lemma EmptySafe(h: Hash)
    ensures Safe(EmptyFabric(), h) && Exact(EmptyFabric())
  {
    forall blob
      ensures Uses(map[], map[], blob) == 0
    {
      assert UseTerms(map[], map[], blob) == map[];
    }
  }
}
