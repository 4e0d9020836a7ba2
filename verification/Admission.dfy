/** When a publication goes through. */
module Admission {
  import opened Bytes
  import opened Status
  import opened Model
  import opened AuthorityOrder
  import opened Manifests
  import opened BlobStore
  import opened Runtime
  import opened Effects
  import opened Safety
  import opened Conservation
  import opened Durability
  import L = Ledger

  // ----- What validation makes of a publication -----

  lemma {:induction false} SlicesTile(cs: seq<Chunk>, h: Hash, content: bytes, offset: nat)
    requires offset <= |content| && Slices(cs, h, content, offset)
    ensures Tiles(cs, offset, |content|)
    ensures forall c <- cs :: c.id == c.offset + 1 && c.logicalLength == c.physicalLength > 0
    ensures forall c <- cs ::
      c.offset + c.logicalLength <= |content| && c.digest == h(content[c.offset..c.offset + c.logicalLength])
    decreases |cs|
  {
    if cs != [] {
      SlicesTile(cs[1..], h, content, offset + cs[0].logicalLength);
      assert cs == [cs[0]] + cs[1..];
    }
  }

  /** The manifest publish_to builds is accepted exactly when none of its digests is zero. */
  lemma BuiltIsValid(id: Id, h: Hash, obj: Object, content: bytes, chunks: seq<Chunk>)
    requires Slices(chunks, h, content, 0) && |content| == obj.logicalSize > 0
    requires id != 0 && obj.id != 0 && forall c <- chunks :: c.blob != 0
    ensures var m := BuiltManifest(id, h, obj, chunks);
      Validation(m, false) == Pass <==> !IsZero(m.digest) && forall c <- chunks :: !IsZero(c.digest)
  {
    hide IsZero, ManifestBytes, Slices, Tiles, Validation;
    var m := BuiltManifest(id, h, obj, chunks);
    ValidationIsTiling(m);
    SlicesTile(chunks, h, content, 0);
    SlicesStrict(chunks, h, content, 0);
    assert DistinctIds(chunks);
  }

  lemma BuiltFields(id: Id, h: Hash, obj: Object, chunks: seq<Chunk>)
    ensures var m := BuiltManifest(id, h, obj, chunks);
      m.id == id && m.chunks == chunks && m.digest == h(ManifestBytes(m.(digest := [])))
  {}

  // ----- Verification stops those that would share a blob kept elsewhere -----

  /** Every slice whose digest is indexed finds the indexed blob on this backend, with that digest. */
  ghost predicate SharedHere(b: Blobs, store: Store, h: Hash, content: bytes, offset: nat, chunk: nat)
    requires offset <= |content| && chunk > 0
    decreases |content| - offset
  {
    offset < |content| ==>
      var n := SliceLength(content, offset, chunk);
      BlobHere(b, store, h, h(content[offset..offset + n])) && SharedHere(b, store, h, content, offset + n, chunk)
  }

  ghost predicate BlobHere(b: Blobs, store: Store, h: Hash, d: Digest) {
    d in b.byDigest ==> b.byDigest[d] in store && h(store[b.byDigest[d]]) == d
  }

  /** Writing a slice does not change the answer for any other. */
  lemma KeepHere(b: Blobs, store: Store, h: Hash, slice: bytes, d: Digest)
    requires Indexed(b)
    ensures var k := Keep(b, store, h, slice, true, NO_FAULTS);
      k.ok() && (BlobHere(k.blobs, k.store, h, d) <==> BlobHere(b, store, h, d))
  {}

  lemma {:induction false} KeepSharedHere(b: Blobs, store: Store, h: Hash, slice: bytes, content: bytes, offset: nat, chunk: nat)
    requires Indexed(b) && offset <= |content| && chunk > 0
    ensures var k := Keep(b, store, h, slice, true, NO_FAULTS);
      SharedHere(k.blobs, k.store, h, content, offset, chunk) <==> SharedHere(b, store, h, content, offset, chunk)
    decreases |content| - offset
  {
    hide Keep, Indexed, BlobHere;
    if offset < |content| {
      var n := SliceLength(content, offset, chunk);
      KeepHere(b, store, h, slice, h(content[offset..offset + n]));
      KeepSharedHere(b, store, h, slice, content, offset + n, chunk);
    }
  }

  /** The first chunk verifies in whatever the store grows to. */
  lemma KeptVerifies(b: Blobs, store: Store, h: Hash, slice: bytes, dedupe: bool, c: Blobs, grown: Store)
    requires Indexed(b)
    requires var k := Keep(b, store, h, slice, dedupe, NO_FAULTS); Grows(k.blobs, k.store, c, grown)
    ensures var k := Keep(b, store, h, slice, dedupe, NO_FAULTS);
      (k.id in grown && h(grown[k.id]) == h(slice)) <==> (!dedupe || BlobHere(b, store, h, h(slice)))
  {
    hide Refs;
  }

  /** Without failing calls the chunks verify exactly when every shared blob is on this backend. */
  lemma {:induction false} VerifiedIff(b: Blobs, store: Store, h: Hash, content: bytes, offset: nat, chunk: nat, dedupe: bool)
    requires offset <= |content| < TWO_64 && chunk > 0 && Indexed(b)
    ensures var w := WriteFrom(b, store, h, content, offset, chunk, dedupe, NO_FAULTS);
      w.ok() && (Verified(w.store, h, w.chunks) <==> !dedupe || SharedHere(b, store, h, content, offset, chunk))
    decreases |content| - offset
  {
    hide Keep, Indexed, Grows, BlobHere, ChunkFor, Verified;
    if offset == |content| {
      VerifiedNone(store, h);
    } else {
      var n := SliceLength(content, offset, chunk);
      var slice := content[offset..offset + n];
      var k := Keep(b, store, h, slice, dedupe, NO_FAULTS);
      KeepGrows(b, store, h, slice, dedupe, NO_FAULTS);
      KeepOk(b, store, h, slice, dedupe);
      VerifiedIff(k.blobs, k.store, h, content, offset + n, chunk, dedupe);
      if dedupe {
        KeepSharedHere(b, store, h, slice, content, offset + n, chunk);
      }
      var c := ChunkFor(content, offset, chunk, h(slice), k.id);
      ChunkOf(content, offset, chunk, h(slice), k.id);
      RestVerifies(b, store, h, content, offset, chunk, dedupe, slice, c);
    }
  }

  lemma RestVerifies(b: Blobs, store: Store, h: Hash, content: bytes, offset: nat, chunk: nat, dedupe: bool,
                     slice: bytes, c: Chunk)
    requires offset < |content| < TWO_64 && chunk > 0 && Indexed(b)
    requires c.blob == Keep(b, store, h, slice, dedupe, NO_FAULTS).id && c.digest == h(slice)
    ensures var k := Keep(b, store, h, slice, dedupe, NO_FAULTS);
      var rest := WriteFrom(k.blobs, k.store, h, content, offset + SliceLength(content, offset, chunk), chunk, dedupe, NO_FAULTS);
      Verified(rest.store, h, [c] + rest.chunks) <==>
        (!dedupe || BlobHere(b, store, h, h(slice))) && Verified(rest.store, h, rest.chunks)
  {
    hide Keep, WriteFrom, Indexed, Grows, BlobHere, Verified, Counted, Named;
    var k := Keep(b, store, h, slice, dedupe, NO_FAULTS);
    var next := offset + SliceLength(content, offset, chunk);
    KeepGrows(b, store, h, slice, dedupe, NO_FAULTS);
    WriteGrows(k.blobs, k.store, h, content, next, chunk, dedupe, NO_FAULTS);
    var rest := WriteFrom(k.blobs, k.store, h, content, next, chunk, dedupe, NO_FAULTS);
    KeptVerifies(b, store, h, slice, dedupe, rest.blobs, rest.store);
    VerifiedCons(rest.store, h, c, rest.chunks);
  }

  lemma VerifiedNone(store: Store, h: Hash)
    ensures Verified(store, h, [])
  {}

  lemma KeepOk(b: Blobs, store: Store, h: Hash, slice: bytes, dedupe: bool)
    ensures Keep(b, store, h, slice, dedupe, NO_FAULTS).ok()
  {}

  lemma ChunkOf(content: bytes, offset: nat, chunk: nat, d: Digest, blob: Id)
    requires offset < |content| < TWO_64 && chunk > 0
    ensures ChunkFor(content, offset, chunk, d, blob).blob == blob
    ensures ChunkFor(content, offset, chunk, d, blob).digest == d
  {}

  lemma VerifiedCons(store: Store, h: Hash, c: Chunk, cs: seq<Chunk>)
    ensures Verified(store, h, [c] + cs) <==> (c.blob in store && h(store[c.blob]) == c.digest) && Verified(store, h, cs)
  {
    assert c in [c] + cs && forall d <- cs :: d in [c] + cs;
  }

  // ----- The exact condition -----

  /** The bytes fit beside what is reserved and committed on the backend. */
  ghost predicate Fits(l: L.Ledger, backend: Id, size: nat) {
    backend in l.backends
    && l.backends[backend].reserved + l.backends[backend].committed + size
       <= L.Add64(l.backends[backend].free, l.allowance)
  }

  /** A writer names no authority while there is one, or one that is not older. */
  predicate MayWrite(f: Fabric, given: Authority) {
    if given.IsNil() then !f.authority.IsNil() else !Newer(f.authority, given)
  }

  /** The size is right, the authority is not stale, and the bytes fit. */
  ghost predicate Eligible(f: Fabric, obj: Object, content: bytes, backend: Id, opts: Options) {
    && |content| == obj.logicalSize > 0 && MayWrite(f, opts.authority)
    && backend in f.stores && Fits(f.ledger, backend, obj.logicalSize)
  }

  /** No blob that would be shared lies on another backend only. */
  ghost predicate SharingHere(f: Fabric, h: Hash, obj: Object, content: bytes, backend: Id, opts: Options)
    requires |content| == obj.logicalSize > 0 && backend in f.stores
  {
    !opts.dedupe || SharedHere(f.blobs, f.stores[backend], h, content, 0, ChunkSize(obj, opts))
  }

  /** None of the digests the publication computes is zero: those of its chunks and that of its manifest. */
  ghost predicate NonZeroDigests(f: Fabric, h: Hash, obj: Object, content: bytes, backend: Id, opts: Options)
    requires |content| == obj.logicalSize > 0 && backend in f.stores
  {
    var m := BuiltManifest(f.ids.manifest, h, obj, Chunking(f, h, obj, content, backend, opts, NO_FAULTS).chunks);
    !IsZero(m.digest) && forall c <- m.chunks :: !IsZero(c.digest)
  }

  /** Only eager verification looks where shared blobs lie. */
  ghost predicate Passes(f: Fabric, h: Hash, obj: Object, content: bytes, backend: Id, opts: Options)
    requires |content| == obj.logicalSize > 0 && backend in f.stores
  {
    && (opts.eagerVerify ==> SharingHere(f, h, obj, content, backend, opts))
    && NonZeroDigests(f, h, obj, content, backend, opts)
  }

  /** Eligible, without a zero digest, and if verified eagerly, sharing no blob that lies on another backend only. */
  ghost predicate Admissible(f: Fabric, h: Hash, obj: Object, content: bytes, backend: Id, opts: Options) {
    Eligible(f, obj, content, backend, opts) && Passes(f, h, obj, content, backend, opts)
  }

  /** The counters give ids that are not nil and not taken. */
  ghost predicate CountersFree(f: Fabric) {
    f.ids.manifest != 0 && f.ids.manifest !in f.manifests && f.ids.placement !in f.placements
  }

  /** With the reservation held and no backend call failing: either the record is made over the written chunks,
      or the publication ends after writing them. */
  lemma ReservedOutcome(f: Fabric, h: Hash, obj: Object, content: bytes, backend: Id, opts: Options, auth: Authority,
                        reservation: Id)
    requires Indexed(f.blobs) && |content| == obj.logicalSize > 0 && Registered(f, backend)
    ensures var w := Chunking(f, h, obj, content, backend, opts, NO_FAULTS);
      var (r, g) := PublishReserved(f, h, obj, content, backend, opts, NO_FAULTS, auth, reservation);
      if obj.id != 0 && f.ids.manifest != 0 && Passes(f, h, obj, content, backend, opts) then
        (r, g) == Record(WrittenState(f, backend, w), obj, backend, opts, auth, reservation,
                         BuiltManifest(f.ids.manifest, h, obj, w.chunks))
      else r.Err? && g == WrittenState(f, backend, w)
  {
    hide WriteFrom, VerifyFrom, Validation, BuiltManifest, Record, Indexed, SharingHere;
    WrittenFacts(f, h, obj, content, backend, opts);
  }

  /** Without failing calls the chunks are written, verify when sharing is possible, and make a valid manifest. */
  lemma WrittenFacts(f: Fabric, h: Hash, obj: Object, content: bytes, backend: Id, opts: Options)
    requires Indexed(f.blobs) && |content| == obj.logicalSize > 0 && backend in f.stores
    ensures var w := Chunking(f, h, obj, content, backend, opts, NO_FAULTS);
      && w.ok()
      && (VerifyFrom(w.store, h, w.chunks, 0, NO_FAULTS).Pass? <==> SharingHere(f, h, obj, content, backend, opts))
      && (Validation(BuiltManifest(f.ids.manifest, h, obj, w.chunks), false).Pass? <==>
          obj.id != 0 && f.ids.manifest != 0 && NonZeroDigests(f, h, obj, content, backend, opts))
  {
    hide WriteFrom, VerifyFrom, Validation, SharedHere, Slices, Verified, Counted, Named, BuiltManifest, Indexed, Grows, IsCeiling;
    var w := Chunking(f, h, obj, content, backend, opts, NO_FAULTS);
    VerifiedIff(f.blobs, f.stores[backend], h, content, 0, ChunkSize(obj, opts), opts.dedupe);
    VerifyFromMeans(w.store, h, w.chunks, 0, NO_FAULTS);
    assert w.chunks[0..] == w.chunks;
    WriteSlices(f.blobs, f.stores[backend], h, content, 0, ChunkSize(obj, opts), opts.dedupe, NO_FAULTS);
    WriteGrows(f.blobs, f.stores[backend], h, content, 0, ChunkSize(obj, opts), opts.dedupe, NO_FAULTS);
    WrittenValid(f.ids.manifest, h, obj, content, w);
  }

  lemma WrittenValid(id: Id, h: Hash, obj: Object, content: bytes, w: Written)
    requires |content| == obj.logicalSize > 0 && Slices(w.chunks, h, content, 0) && Named(w)
    ensures var m := BuiltManifest(id, h, obj, w.chunks);
      Validation(m, false).Pass? <==> obj.id != 0 && id != 0 && !IsZero(m.digest) && forall c <- m.chunks :: !IsZero(c.digest)
  {
    hide Validation, Slices, BuiltManifest, IsZero;
    BuiltFields(id, h, obj, w.chunks);
    if obj.id != 0 && id != 0 {
      BuiltIsValid(id, h, obj, content, w.chunks);
    } else {
      NilInvalid(id, h, obj, w.chunks);
    }
  }

  lemma NilInvalid(id: Id, h: Hash, obj: Object, chunks: seq<Chunk>)
    requires id == 0 || obj.id == 0
    ensures Validation(BuiltManifest(id, h, obj, chunks), false).Fail?
  {}

  /** Which record succeeds, a reservation being held. */
  lemma RecordOkIff(f: Fabric, obj: Object, backend: Id, opts: Options, auth: Authority, reservation: Id, man: Manifest)
    requires Registered(f, backend) && L.Balanced(f.ledger)
    requires reservation in f.ledger.reservations && f.ledger.reservations[reservation].state == L.ACTIVE
    ensures Record(f, obj, backend, opts, auth, reservation, man).0.Ok? <==>
      man.id !in f.manifests && f.ids.placement !in f.placements && obj.id in f.catalog
  {
    hide L.Balanced, L.Commit, NewPlacement, WithPlacement;
    L.CommitKeeps(f.ledger, reservation, f.ids.placement);
  }

  lemma ReservedOkIff(f: Fabric, h: Hash, obj: Object, content: bytes, backend: Id, opts: Options, auth: Authority,
                      reservation: Id)
    requires Indexed(f.blobs) && |content| == obj.logicalSize > 0 && Registered(f, backend)
    requires L.Balanced(f.ledger)
    requires reservation in f.ledger.reservations && f.ledger.reservations[reservation].state == L.ACTIVE
    ensures PublishReserved(f, h, obj, content, backend, opts, NO_FAULTS, auth, reservation).0.Ok? <==>
      Passes(f, h, obj, content, backend, opts) && CountersFree(f) && obj.id in f.catalog && obj.id != 0
  {
    hide PublishReserved, Record, BuiltManifest, Passes, Chunking, Indexed, L.Balanced;
    ReservedOutcome(f, h, obj, content, backend, opts, auth, reservation);
    var w := Chunking(f, h, obj, content, backend, opts, NO_FAULTS);
    BuiltFields(f.ids.manifest, h, obj, w.chunks);
    RecordOkIff(WrittenState(f, backend, w), obj, backend, opts, auth, reservation,
                BuiltManifest(f.ids.manifest, h, obj, w.chunks));
  }

  /** While no backend call fails a publication succeeds exactly when it is eligible, passes verification and
      validation, and meets free counters and a catalogued object. This holds of any state with a consistent
      index and balanced accounts, recovered ones included. */
  lemma SucceedsIff(f: Fabric, h: Hash, obj: Object, content: bytes, backend: Id, opts: Options)
    requires Indexed(f.blobs) && L.Balanced(f.ledger) && (backend in f.stores ==> Registered(f, backend))
    ensures Publish(f, h, obj, content, backend, opts, NO_FAULTS).0.Ok? <==>
      Admissible(f, h, obj, content, backend, opts) && CountersFree(f) && obj.id in f.catalog && obj.id != 0
  {
    hide PublishReserved, Passes, Indexed, L.Balanced, L.Reserve, L.Release;
    if |content| == obj.logicalSize && backend in f.stores {
      match ActingAuthority(f, opts.authority)
      case Err(_) =>
      case Ok(auth) =>
        L.ReserveKeeps(f.ledger, backend, obj.logicalSize, auth.generation, auth.worker);
        L.ReserveActive(f.ledger, backend, obj.logicalSize, auth.generation, auth.worker);
        var (r, l) := L.Reserve(f.ledger, backend, obj.logicalSize, auth.generation, auth.worker);
        if r.Ok? {
          ReservedOkIff(f.(ledger := l), h, obj, content, backend, opts, auth, r.value.id);
          SamePasses(f, l, h, obj, content, backend, opts);
        }
    }
  }

  lemma SamePasses(f: Fabric, l: L.Ledger, h: Hash, obj: Object, content: bytes, backend: Id, opts: Options)
    requires |content| == obj.logicalSize > 0 && backend in f.stores
    ensures Passes(f.(ledger := l), h, obj, content, backend, opts) <==> Passes(f, h, obj, content, backend, opts)
  {}

  lemma AheadCounters(f: Fabric)
    requires Ahead(f)
    ensures CountersFree(f) && 0 !in f.catalog
  {}

  /** In a sound state, exactly the admissible publications of catalogued objects succeed: without eager
      verification, all eligible ones without a zero digest. */
  lemma PublishOkIff(f: Fabric, h: Hash, obj: Object, content: bytes, backend: Id, opts: Options)
    requires Safe(f, h) && Conserved(f) && Ahead(f) && obj.id in f.catalog
    ensures Publish(f, h, obj, content, backend, opts, NO_FAULTS).0.Ok? <==> Admissible(f, h, obj, content, backend, opts)
    ensures !opts.eagerVerify ==>
      (Admissible(f, h, obj, content, backend, opts) <==>
        Eligible(f, obj, content, backend, opts) && NonZeroDigests(f, h, obj, content, backend, opts))
  {
    hide Publish, Safe, Ahead, SharingHere, Eligible, NonZeroDigests, Indexed, L.Balanced, Occupied;
    SafeIndexed(f, h);
    AheadCounters(f);
    EligibleShape(f, obj, content, backend, opts);
    SucceedsIff(f, h, obj, content, backend, opts);
  }

  lemma EligibleShape(f: Fabric, obj: Object, content: bytes, backend: Id, opts: Options)
    ensures Eligible(f, obj, content, backend, opts) ==> |content| == obj.logicalSize > 0 && backend in f.stores
  {}

  // ----- Without eager verification -----

  /** When nothing is shared from elsewhere, verifying eagerly makes no difference. */
  lemma EagerSame(f: Fabric, h: Hash, obj: Object, content: bytes, backend: Id, opts: Options)
    requires Indexed(f.blobs) && (backend in f.stores ==> Registered(f, backend)) && !opts.eagerVerify
    requires |content| == obj.logicalSize > 0 && backend in f.stores ==> SharingHere(f, h, obj, content, backend, opts)
    ensures Publish(f, h, obj, content, backend, opts, NO_FAULTS)
         == Publish(f, h, obj, content, backend, opts.(eagerVerify := true), NO_FAULTS)
  {
    hide PublishReserved, SharingHere, Indexed, L.Reserve, L.Release;
    if |content| == obj.logicalSize && backend in f.stores {
      match ActingAuthority(f, opts.authority)
      case Err(_) =>
      case Ok(auth) =>
        L.ReserveActive(f.ledger, backend, obj.logicalSize, auth.generation, auth.worker);
        var (r, l) := L.Reserve(f.ledger, backend, obj.logicalSize, auth.generation, auth.worker);
        if r.Ok? {
          EagerReserved(f, l, h, obj, content, backend, opts, auth, r.value.id);
        }
    }
  }

  lemma EagerReserved(f: Fabric, l: L.Ledger, h: Hash, obj: Object, content: bytes, backend: Id, opts: Options,
                      auth: Authority, reservation: Id)
    requires Indexed(f.blobs) && Registered(f, backend) && !opts.eagerVerify
    requires |content| == obj.logicalSize > 0 && SharingHere(f, h, obj, content, backend, opts)
    ensures var k := f.(ledger := l);
      PublishReserved(k, h, obj, content, backend, opts, NO_FAULTS, auth, reservation)
        == PublishReserved(k, h, obj, content, backend, opts.(eagerVerify := true), NO_FAULTS, auth, reservation)
  {
    hide WriteFrom, VerifyFrom, Validation, SharedHere, Verified, BuiltManifest, Indexed, NewPlacement, WithPlacement, L.Commit;
    var store := f.stores[backend];
    var w := WriteFrom(f.blobs, store, h, content, 0, ChunkSize(obj, opts), opts.dedupe, NO_FAULTS);
    VerifiedIff(f.blobs, store, h, content, 0, ChunkSize(obj, opts), opts.dedupe);
    VerifyFromMeans(w.store, h, w.chunks, 0, NO_FAULTS);
    assert w.chunks[0..] == w.chunks;
  }

  /** Eager verification is all that stands between a shared blob kept elsewhere and a placement without its
      bytes: an unverified publication that goes through keeps blob safety exactly when nothing it shares is
      missing from its backend. */
  lemma UnverifiedSafeIff(f: Fabric, h: Hash, obj: Object, content: bytes, backend: Id, opts: Options)
    requires Safe(f, h) && (backend in f.stores ==> Registered(f, backend)) && obj.id in f.catalog && !opts.eagerVerify
    requires Publish(f, h, obj, content, backend, opts, NO_FAULTS).0.Ok?
    ensures |content| == obj.logicalSize > 0 && backend in f.stores
    ensures Safe(Publish(f, h, obj, content, backend, opts, NO_FAULTS).1, h) <==> SharingHere(f, h, obj, content, backend, opts)
  {
    hide Publish, Safe, SharedHere, VerifyFrom, WriteFrom, BuiltManifest, WithPlacement, Verified, Indexed, Exact;
    PublishEffect(f, h, obj, content, backend, opts, NO_FAULTS);
    SafeIndexed(f, h);
    var (r, g) := Publish(f, h, obj, content, backend, opts, NO_FAULTS);
    if SharingHere(f, h, obj, content, backend, opts) {
      EagerSame(f, h, obj, content, backend, opts);
      PublishKeeps(f, h, obj, content, backend, opts.(eagerVerify := true), NO_FAULTS);
    } else {
      VerifiedIff(f.blobs, f.stores[backend], h, content, 0, ChunkSize(obj, opts), opts.dedupe);
      var w := Chunking(f, h, obj, content, backend, opts, NO_FAULTS);
      BuiltFields(f.ids.manifest, h, obj, w.chunks);
      if Safe(g, h) {
        SafeVerified(g, h, r.value.id);
      }
    }
  }

  lemma SafeVerified(f: Fabric, h: Hash, id: Id)
    requires Safe(f, h) && id in f.placements && Live(f.placements[id])
    ensures var p := f.placements[id];
      p.manifest in f.manifests && p.backend in f.stores && Verified(f.stores[p.backend], h, f.manifests[p.manifest].chunks)
  {
    hide Uses, Refs, Indexed, Recorded, Verified;
    assert Backed(h, f.stores, f.placements[id], f.manifests);
  }

  // ----- Objects that are not in the catalog -----

  /** Nothing was placed or catalogued. */
  ghost predicate NothingPlaced(f: Fabric, g: Fabric) {
    && g == f.(blobs := g.blobs, stores := g.stores, ledger := g.ledger, ids := g.ids, manifests := g.manifests)
    && g.stores.Keys == f.stores.Keys
  }

  lemma RecordUncatalogued(f: Fabric, obj: Object, backend: Id, opts: Options, auth: Authority, reservation: Id, man: Manifest)
    requires Registered(f, backend) && obj.id !in f.catalog
    requires man.id !in f.manifests && f.ids.placement !in f.placements
    requires L.Commit(f.ledger, reservation, f.ids.placement).0.Pass?
    ensures var (r, g) := Record(f, obj, backend, opts, auth, reservation, man);
      r == Err(NotFound) && NothingPlaced(f, g)
      && g.ledger == L.Commit(f.ledger, reservation, f.ids.placement).1
  {
    hide L.Commit, NewPlacement, WithPlacement;
  }

  /** What a publication that does not name a catalogued object does: if it is admissible otherwise, it is refused as
      NotFound with its bytes committed and no placement for them; if not, the accounts stay as they were. */
  lemma UncataloguedOutcome(f: Fabric, h: Hash, obj: Object, content: bytes, backend: Id, opts: Options)
    requires Safe(f, h) && Conserved(f) && Ahead(f) && obj.id !in f.catalog
    ensures var (r, g) := Publish(f, h, obj, content, backend, opts, NO_FAULTS);
      NothingPlaced(f, g) && L.Balanced(g.ledger) &&
      if obj.id != 0 && Admissible(f, h, obj, content, backend, opts) then
        r == Err(NotFound) && Charged(f.ledger, g.ledger, backend, obj.logicalSize)
      else r.Err? && g.ledger.backends == f.ledger.backends
  {
    hide PublishReserved, Safe, Ahead, Passes, Indexed, L.Balanced, L.Reserve, L.Release, Occupied;
    SafeIndexed(f, h);
    AheadCounters(f);
    if |content| == obj.logicalSize && backend in f.stores {
      match ActingAuthority(f, opts.authority)
      case Err(_) =>
      case Ok(auth) =>
        L.ReserveKeeps(f.ledger, backend, obj.logicalSize, auth.generation, auth.worker);
        L.ReserveActive(f.ledger, backend, obj.logicalSize, auth.generation, auth.worker);
        ReserveRelease(f.ledger, backend, obj.logicalSize, auth.generation, auth.worker);
        if L.Reserve(f.ledger, backend, obj.logicalSize, auth.generation, auth.worker).0.Ok? {
          UncataloguedReleased(f, h, obj, content, backend, opts, auth);
        }
    }
  }

  lemma UncataloguedReleased(f: Fabric, h: Hash, obj: Object, content: bytes, backend: Id, opts: Options, auth: Authority)
    requires Indexed(f.blobs) && |content| == obj.logicalSize > 0 && Registered(f, backend)
    requires CountersFree(f) && obj.id !in f.catalog
    requires L.Balanced(f.ledger) && forall b <- f.ledger.backends :: f.ledger.backends[b].reserved == 0
    requires L.Reserve(f.ledger, backend, obj.logicalSize, auth.generation, auth.worker).0.Ok?
    ensures var (r, l) := L.Reserve(f.ledger, backend, obj.logicalSize, auth.generation, auth.worker);
      var (res, k) := PublishReserved(f.(ledger := l), h, obj, content, backend, opts, NO_FAULTS, auth, r.value.id);
      var g := k.(ledger := L.Release(k.ledger, r.value.id, r.value.generation).1);
      NothingPlaced(f, g) && L.Balanced(g.ledger) &&
      if obj.id != 0 && Passes(f, h, obj, content, backend, opts) then
        res == Err(NotFound) && Charged(f.ledger, g.ledger, backend, obj.logicalSize)
      else res.Err? && g.ledger.backends == f.ledger.backends
  {
    hide PublishReserved, Passes, Indexed, L.Balanced, L.Reserve, L.Release, L.Commit;
    ReserveRelease(f.ledger, backend, obj.logicalSize, auth.generation, auth.worker);
    ReserveCommit(f.ledger, backend, obj.logicalSize, auth.generation, auth.worker, f.ids.placement);
    var (r, l) := L.Reserve(f.ledger, backend, obj.logicalSize, auth.generation, auth.worker);
    UncataloguedReserved(f.(ledger := l), h, obj, content, backend, opts, auth, r.value.id);
    SamePasses(f, l, h, obj, content, backend, opts);
  }

  lemma FreeCounters(f: Fabric)
    requires CountersFree(f)
    ensures f.ids.manifest != 0 && f.ids.manifest !in f.manifests && f.ids.placement !in f.placements
  {}

  lemma UncataloguedReserved(f: Fabric, h: Hash, obj: Object, content: bytes, backend: Id, opts: Options, auth: Authority,
                             reservation: Id)
    requires Indexed(f.blobs) && |content| == obj.logicalSize > 0 && Registered(f, backend)
    requires CountersFree(f) && obj.id !in f.catalog
    requires L.Commit(f.ledger, reservation, f.ids.placement).0.Pass?
    ensures var (r, g) := PublishReserved(f, h, obj, content, backend, opts, NO_FAULTS, auth, reservation);
      NothingPlaced(f, g) &&
      if obj.id != 0 && Passes(f, h, obj, content, backend, opts) then
        r == Err(NotFound) && g.ledger == L.Commit(f.ledger, reservation, f.ids.placement).1
      else r.Err? && g.ledger == f.ledger
  {
    hide PublishReserved, Record, BuiltManifest, Passes, Chunking, Indexed, CountersFree, L.Commit, ManifestBytes, IsZero;
    FreeCounters(f);
    ReservedOutcome(f, h, obj, content, backend, opts, auth, reservation);
    if obj.id != 0 && Passes(f, h, obj, content, backend, opts) {
      var w := Chunking(f, h, obj, content, backend, opts, NO_FAULTS);
      BuiltFields(f.ids.manifest, h, obj, w.chunks);
      RecordUncatalogued(WrittenState(f, backend, w), obj, backend, opts, auth, reservation,
                         BuiltManifest(f.ids.manifest, h, obj, w.chunks));
    }
  }

  lemma AdmissibleShape(f: Fabric, h: Hash, obj: Object, content: bytes, backend: Id, opts: Options)
    ensures Admissible(f, h, obj, content, backend, opts) ==> |content| == obj.logicalSize > 0 && backend in f.stores
  {}

  /** The catalog lookup comes after the commit: a publication keeps the accounts in step with the placements exactly
      when its object is catalogued, or nil, or it would have been refused before the commit anyway. */
  lemma ConservedIff(f: Fabric, h: Hash, obj: Object, content: bytes, backend: Id, opts: Options)
    requires Safe(f, h) && Conserved(f) && Ahead(f)
    ensures Conserved(Publish(f, h, obj, content, backend, opts, NO_FAULTS).1) <==>
      obj.id in f.catalog || obj.id == 0 || !Admissible(f, h, obj, content, backend, opts)
  {
    hide Publish, Safe, Ahead, Admissible, L.Balanced, Occupied;
    if obj.id in f.catalog {
      PublishConserves(f, h, obj, content, backend, opts, NO_FAULTS);
    } else {
      UncataloguedOutcome(f, h, obj, content, backend, opts);
      AdmissibleShape(f, h, obj, content, backend, opts);
    }
  }

  // ----- replicate and move -----

  /** The options replicate passes on. */
  function CopyOptions(source: Placement, opts: Options): Options {
    if opts.required == 0 then opts.(required := source.durabilityReplicas) else opts
  }

  /** replicate, and so move, succeeds exactly when the source reads and the copy is admissible. */
  lemma MoveOkIff(f: Fabric, h: Hash, source: Placement, target: Id, opts: Options)
    requires Safe(f, h) && Conserved(f) && Ahead(f) && Keyed(f.catalog)
    ensures Move(f, h, source, target, opts, NO_FAULTS, NO_FAULTS).0.Ok? <==>
      && source.obj in f.catalog && ReadById(f, source.id, NO_FAULTS).Ok?
      && Admissible(f, h, f.catalog[source.obj].obj, ReadById(f, source.id, NO_FAULTS).value, target, CopyOptions(source, opts))
  {
    hide Publish, Safe, Admissible, ReadById, Ahead, L.Balanced, Occupied;
    if source.obj in f.catalog && ReadById(f, source.id, NO_FAULTS).Ok? {
      PublishOkIff(f, h, f.catalog[source.obj].obj, ReadById(f, source.id, NO_FAULTS).value, target, CopyOptions(source, opts));
    }
  }
}
