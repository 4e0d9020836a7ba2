/** Runs on two disks that show what the runtime does not promise. Each starts from an empty runtime, every step of it
    is carried out, and the digest is any function that gives no zero digest. */
module Examples {
  import opened Bytes
  import opened Status
  import opened Model
  import opened AuthorityOrder
  import opened BlobStore
  import opened Runtime
  import opened Effects
  import opened Safety
  import opened Conservation
  import opened Durability
  import opened ReadBack
  import opened Admission
  import opened Runs
  import opened Recovery
  import opened AfterRecovery
  import opened LiveRecovery
  import L = Ledger

  const AUTH := Authority(1, 1, 1, 1, ORIGIN_WORKER)
  const NIL := Authority(0, 0, 0, 0, ORIGIN_WORKER)
  const CONTENT: bytes := [7]
  const OWN_BLOBS := Options(AUTH, 1, false, true, 0)
  const SHARED := Options(AUTH, 1, true, true, 0)
  const UNVERIFIED := Options(AUTH, 1, true, false, 0)

  ghost predicate NonZero(h: Hash) {
    forall x :: !IsZero(h(x))
  }

  /** There is such a digest. */
  lemma SomeNonZero()
    ensures NonZero((x: bytes) => [1] + x)
  {
    forall x: bytes
      ensures !IsZero([1] + x)
    {
      assert ([1] + x)[0] in [1] + x;
    }
  }

  function Disk(id: Id): Backend {
    Backend(id, id, id, [], 1, Capacity(10, 10, 0, 0, 0, false), [], 0, 0, 0, 0)
  }

  // ----- Steps -----

  /** Reached by a run whose publications all went through. */
  ghost predicate Reached(h: Hash, f: Fabric) {
    Reachable(f, h) && Exact(f)
  }

  lemma ReachedSound(h: Hash, f: Fabric)
    requires Reached(h, f)
    ensures Sound(f, h) && Exact(f)
  {
    hide Reachable, Exact, Sound;
    ReachableSound(f, h);
  }

  lemma Perform(h: Hash, f: Fabric, op: Op) returns (g: Fabric)
    requires Reached(h, f) && Allowed(f, op)
    ensures Wired(f) && g == Step(f, h, op) && Reachable(g, h) && (Completed(f, h, op) ==> Reached(h, g))
  {
    hide Reachable, Allowed, Step, Completed, Safe, Wired, Exact, Preserves, SameObjects;
    ReachableStep(f, h, op);
    StepSteady(f, h, op);
    g := Step(f, h, op);
  }

  lemma RegisterReached(h: Hash, f: Fabric, id: Id)
    requires Reached(h, f) && id !in f.stores
    ensures Reached(h, RegisterBackend(f, Disk(id), Tier([], [])))
  {
    hide Reached, Wired, Publish, Replicate, Move, Evict, RegisterBackend, DefineObject;
    var g := Perform(h, f, OpRegister(Disk(id), Tier([], [])));
  }

  lemma AuthorityReached(h: Hash, f: Fabric)
    requires Reached(h, f)
    ensures Reached(h, f.(authority := AUTH))
  {
    hide Reached, Wired, Publish, Replicate, Move, Evict, RegisterBackend, DefineObject;
    var g := Perform(h, f, OpAuthority(AUTH));
  }

  lemma DefineReached(h: Hash, f: Fabric)
    requires Reached(h, f)
    ensures Reached(h, DefineObject(f, h, 0, 1, CONTENT, AUTH, 1, 0).1)
  {
    hide Reached, Wired, Publish, Replicate, Move, Evict, RegisterBackend, DefineObject;
    var g := Perform(h, f, OpDefine(0, 1, CONTENT, AUTH, 1, 0));
  }

  lemma PublishReached(h: Hash, f: Fabric, o: Object, opts: Options)
    requires Reached(h, f) && o.id in f.catalog && opts.eagerVerify && Registered(f, 1)
    requires Publish(f, h, o, CONTENT, 1, opts, NO_FAULTS).0.Ok?
    ensures Reached(h, Publish(f, h, o, CONTENT, 1, opts, NO_FAULTS).1)
  {
    hide Reached, Wired, Publish, Replicate, Move, Evict, RegisterBackend, DefineObject, Registered;
    var g := Perform(h, f, OpPublish(o, CONTENT, 1, opts, NO_FAULTS));
  }

  lemma EvictReached(h: Hash, f: Fabric, id: Id)
    requires Reached(h, f)
    ensures Reached(h, Evict(f, id, NO_FAULTS).1)
  {
    hide Reached, Wired, Publish, Replicate, Move, Evict, RegisterBackend, DefineObject;
    var g := Perform(h, f, OpEvict(id, NO_FAULTS));
  }

  lemma MoveReached(h: Hash, f: Fabric, source: Placement)
    requires Reached(h, f) && Registered(f, 2) && Allowed(f, OpMove(source, 2, OWN_BLOBS, NO_FAULTS, NO_FAULTS))
    requires Move(f, h, source, 2, OWN_BLOBS, NO_FAULTS, NO_FAULTS).0.Ok?
    ensures Reached(h, Move(f, h, source, 2, OWN_BLOBS, NO_FAULTS, NO_FAULTS).1)
  {
    hide Reached, Wired, Publish, Replicate, Move, Evict, RegisterBackend, DefineObject, Registered;
    var g := Perform(h, f, OpMove(source, 2, OWN_BLOBS, NO_FAULTS, NO_FAULTS));
  }

  // ----- Two disks of ten bytes -----

  ghost predicate TwoDisks(f: Fabric) {
    && f.stores.Keys == {1, 2} && f.ledger.backends.Keys == {1, 2} && f.ledger.allowance == 0
    && f.ledger.backends[1].free == 10 && f.ledger.backends[2].free == 10
    && f.ledger.backends[2].reserved == 0 && f.ledger.backends[2].committed == 0
  }

  ghost predicate Disks(f: Fabric) {
    && TwoDisks(f) && f.authority == AUTH && Blank(f) && f.stores[1] == map[] && f.stores[2] == map[]
    && f.ledger.backends[1].reserved == 0 && f.ledger.backends[1].committed == 0
  }

  lemma AddDisks(h: Hash) returns (f: Fabric)
    ensures Reached(h, f) && Disks(f)
  {
    hide Reached;
    EmptyReached(h);
    RegisterReached(h, EmptyFabric(), 1);
    var one := RegisterBackend(EmptyFabric(), Disk(1), Tier([], []));
    RegisterReached(h, one, 2);
    var two := RegisterBackend(one, Disk(2), Tier([], []));
    AuthorityReached(h, two);
    f := two.(authority := AUTH);
  }

  lemma EmptyReached(h: Hash)
    ensures Reached(h, EmptyFabric())
  {
    hide Reachable, Exact;
    EmptyReachable(h);
    EmptySafe(h);
  }

  /** One object of one byte, defined as object one. */
  ghost predicate OneObject(f: Fabric) {
    && f.authority == AUTH && f.catalog.Keys == {1} && f.catalog[1].obj.id == 1
    && f.catalog[1].obj.logicalSize == 1 && f.catalog[1].obj.minReplicas == 1 && f.catalog[1].replicaSet.required == 1
  }

  lemma Prepare(h: Hash) returns (f: Fabric)
    ensures Reached(h, f) && TwoDisks(f) && OneObject(f) && f.placements == map[]
    ensures f.blobs == NO_BLOBS && f.manifests == map[] && f.ids.manifest == f.ids.placement == 1
    ensures f.stores[1] == map[] && f.stores[2] == map[]
    ensures f.ledger.backends[1].reserved == 0 && f.ledger.backends[1].committed == 0
  {
    hide Reached, RunnerText;
    var disks := AddDisks(h);
    DefineReached(h, disks);
    f := DefineObject(disks, h, 0, 1, CONTENT, AUTH, 1, 0).1;
  }

  lemma NoZeroDigests(h: Hash, f: Fabric, obj: Object, content: bytes, backend: Id, opts: Options)
    requires Safe(f, h) && NonZero(h) && 0 < |content| == obj.logicalSize < TWO_64 && backend in f.stores
    ensures NonZeroDigests(f, h, obj, content, backend, opts)
  {
    hide IsZero, WriteFrom, Slices, ManifestBytes, IsCeiling, Safe, Indexed, Verified, SharedHere;
    SafeIndexed(f, h);
    var w := Chunking(f, h, obj, content, backend, opts, NO_FAULTS);
    WriteSlices(f.blobs, f.stores[backend], h, content, 0, ChunkSize(obj, opts), opts.dedupe, NO_FAULTS);
    VerifiedIff(f.blobs, f.stores[backend], h, content, 0, ChunkSize(obj, opts), opts.dedupe);
    SlicesTile(w.chunks, h, content, 0);
  }

  lemma OwnBlobsAdmissible(h: Hash, f: Fabric, obj: Object, backend: Id)
    requires Safe(f, h) && NonZero(h) && TwoDisks(f) && f.authority == AUTH && obj.logicalSize == 1 && backend in {1, 2}
    requires f.ledger.backends[backend].reserved == 0 && f.ledger.backends[backend].committed <= 9
    ensures Admissible(f, h, obj, CONTENT, backend, OWN_BLOBS)
    ensures Eligible(f, obj, CONTENT, backend, SHARED) && NonZeroDigests(f, h, obj, CONTENT, backend, SHARED)
    ensures Eligible(f, obj, CONTENT, backend, UNVERIFIED) && NonZeroDigests(f, h, obj, CONTENT, backend, UNVERIFIED)
  {
    hide Safe, NonZero, NonZeroDigests;
    NoZeroDigests(h, f, obj, CONTENT, backend, OWN_BLOBS);
    NoZeroDigests(h, f, obj, CONTENT, backend, SHARED);
    NoZeroDigests(h, f, obj, CONTENT, backend, UNVERIFIED);
  }

  // ----- A publication that names no catalogued object keeps its bytes -----

  /** The bytes of a refused publication stay committed, with nothing to evict that would free them. */
  lemma LostBytes(h: Hash) returns (f: Fabric, obj: Object, g: Fabric)
    requires NonZero(h)
    ensures Reachable(f, h) && obj.id !in f.catalog && Registered(f, 1)
    ensures Publish(f, h, obj, CONTENT, 1, OWN_BLOBS, NO_FAULTS) == (Err(NotFound), g)
    ensures g.placements == f.placements && Charged(f.ledger, g.ledger, 1, 1) && !Conserved(g)
  {
    hide Reachable, Exact, Publish, Safe, Durable, Ahead, Conserved, Admissible, Eligible, NonZeroDigests, NonZero,
      Wired, Charged;
    f := Prepare(h);
    obj := f.catalog[1].obj.(id := 5);
    ReachedSound(h, f);
    RegisteredTarget(f, 1);
    OwnBlobsAdmissible(h, f, obj, 1);
    UncataloguedOutcome(f, h, obj, CONTENT, 1, OWN_BLOBS);
    ConservedIff(f, h, obj, CONTENT, 1, OWN_BLOBS);
    g := Publish(f, h, obj, CONTENT, 1, OWN_BLOBS, NO_FAULTS).1;
  }

  // ----- One copy on the first disk -----

  lemma WriteOne(h: Hash, b: Blobs, store: Store, dedupe: bool)
    ensures WriteFrom(b, store, h, CONTENT, 0, 1, dedupe, NO_FAULTS) ==
      var k := Keep(b, store, h, CONTENT, dedupe, NO_FAULTS);
      Written(Pass, k.blobs, k.store, [ChunkFor(CONTENT, 0, 1, h(CONTENT), k.id)])
  {
    hide Keep;
    assert CONTENT[0..1] == CONTENT;
    var k := Keep(b, store, h, CONTENT, dedupe, NO_FAULTS);
    KeepOk(b, store, h, CONTENT, dedupe);
    assert WriteFrom(k.blobs, k.store, h, CONTENT, 1, 1, dedupe, NO_FAULTS) == Written(Pass, k.blobs, k.store, []);
  }

  /** The chunk of the one byte, in blob one. */
  function OnlyChunk(h: Hash): Chunk {
    Chunk(1, 1, 0, 1, 1, h(CONTENT), 1, ORIGIN_WORKER)
  }

  /** Placement id is an AVAILABLE copy of object one on disk one, in blob one. */
  ghost predicate CopyAt(h: Hash, f: Fabric, id: Id) {
    && id in f.placements
    && var p := f.placements[id];
       p.id == id && p.obj == 1 && p.backend == 1 && p.manifest == id && p.durabilityReplicas == 1
       && p.manifest in f.manifests && f.manifests[p.manifest].chunks == [OnlyChunk(h)] && f.manifests[p.manifest].total == 1
  }

  ghost predicate Placed(h: Hash, f: Fabric) {
    && OneObject(f) && TwoDisks(f) && f.placements.Keys == {1} && CopyAt(h, f, 1) && f.placements[1].lifecycle == AVAILABLE
    && h(CONTENT) in f.blobs.byDigest && f.blobs.byDigest[h(CONTENT)] == 1
    && f.stores[1] == map[1 := CONTENT] && f.stores[2] == map[]
    && f.ledger.backends[1].reserved == 0 && f.ledger.backends[1].committed == 1
    && f.ids.manifest == f.ids.placement == 2 && f.manifests.Keys == {1}
  }

  lemma FirstBlob(h: Hash)
    ensures Keep(NO_BLOBS, map[], h, CONTENT, false, NO_FAULTS)
         == Kept(Pass, Blobs(map[h(CONTENT) := 1], map[1 := h(CONTENT)], map[1 := 1], map[1 := 1], 2), map[1 := CONTENT], 1)
    ensures ChunkFor(CONTENT, 0, 1, h(CONTENT), 1) == OnlyChunk(h)
  {}

  lemma Place(h: Hash) returns (f: Fabric)
    requires NonZero(h)
    ensures Reached(h, f) && Placed(h, f)
  {
    hide Reached, Publish, Admissible, Eligible, NonZeroDigests, NonZero, Succeeded, Placed, Charged, Safe, Wired,
      Conserved, Ahead, Durable, NoCollision;
    var start := Prepare(h);
    var obj := start.catalog[1].obj;
    ReachedParts(h, start);
    ReservedNone(start);
    RegisteredTarget(start, 1);
    OwnBlobsAdmissible(h, start, obj, 1);
    PublishOkIff(start, h, obj, CONTENT, 1, OWN_BLOBS);
    PublishReached(h, start, obj, OWN_BLOBS);
    PublishEffect(start, h, obj, CONTENT, 1, OWN_BLOBS, NO_FAULTS);
    PublishLedger(start, h, obj, CONTENT, 1, OWN_BLOBS, NO_FAULTS);
    f := Publish(start, h, obj, CONTENT, 1, OWN_BLOBS, NO_FAULTS).1;
    FirstCopy(h, start, f, obj, Publish(start, h, obj, CONTENT, 1, OWN_BLOBS, NO_FAULTS).0.value);
  }

  lemma ReservedNone(f: Fabric)
    requires Conserved(f)
    ensures L.Balanced(f.ledger) && forall b <- f.ledger.backends :: f.ledger.backends[b].reserved == 0
  {
    hide L.Balanced, Occupied;
  }

  lemma FirstCopy(h: Hash, start: Fabric, f: Fabric, obj: Object, p: Placement)
    requires TwoDisks(start) && OneObject(start) && start.placements == map[] && obj == start.catalog[1].obj
    requires start.blobs == NO_BLOBS && start.manifests == map[] && start.ids.manifest == start.ids.placement == 1
    requires start.stores[1] == map[] && start.stores[2] == map[] && Durable(start)
    requires start.ledger.backends[1].reserved == 0 && start.ledger.backends[1].committed == 0
    requires Succeeded(start, f, h, obj, CONTENT, 1, OWN_BLOBS, NO_FAULTS, p)
    requires Charged(start.ledger, f.ledger, 1, 1) && f.ledger.allowance == 0
    ensures Placed(h, f)
  {
    hide Keep, WriteFrom, VerifyFrom, ChunkFor, OnlyChunk, ManifestBytes, WithPlacement, Durable, Registered;
    WriteOne(h, NO_BLOBS, map[], false);
    FirstBlob(h);
    RequiredAfter(start, f, h, obj, CONTENT, 1, OWN_BLOBS, NO_FAULTS, p);
    EntryKept(start, start.catalog[1], p);
  }

  lemma EntryKept(f: Fabric, e: Entry, p: Placement)
    requires Placeable(f, p)
    ensures WithPlacement(f, e, p).obj == e.obj
  {}

  lemma ReachedParts(h: Hash, f: Fabric)
    requires Reached(h, f)
    ensures Safe(f, h) && Wired(f) && Keyed(f.catalog) && Conserved(f) && Ahead(f) && Durable(f) && Exact(f)
  {
    hide Reached, Safe, Wired, Keyed, Conserved, Ahead, Durable, Exact;
    ReachedSound(h, f);
    WiredKeyed(f);
  }

  lemma CopyReads(h: Hash, f: Fabric, id: Id)
    requires CopyAt(h, f, id) && 1 in f.stores && 1 in f.stores[1] && f.stores[1][1] == CONTENT
    ensures ReadById(f, id, NO_FAULTS) == Ok(CONTENT)
  {
    var m := f.manifests[f.placements[id].manifest];
    assert ReadFrom(f.stores[1], m.chunks, 1, NO_FAULTS) == Ok([]);
    assert CONTENT + [] == CONTENT;
  }

  // ----- Moving and evicting loses an object -----

  /** Every step is allowed and succeeds, and a published object ends up without an AVAILABLE placement. */
  lemma ObjectLost(h: Hash) returns (before: Fabric, mid: Fabric, copy: Placement, after: Fabric)
    requires NonZero(h)
    ensures Reached(h, before) && Registered(before, 2) && AvailablePlacements(before.placements, 1) == {1}
    ensures Move(before, h, before.placements[1], 2, OWN_BLOBS, NO_FAULTS, NO_FAULTS) == (Ok(copy), mid)
    ensures Evict(mid, copy.id, NO_FAULTS) == (Pass, after)
    ensures Reached(h, after) && AvailablePlacements(after.placements, 1) == {}
  {
    hide Reached, Keyed, Move, Evict, Safe, Conserved, Ahead, Durable, Wired, Admissible, Eligible, NonZeroDigests,
      NonZero, ReadById, OnlyChunk;
    before := Place(h);
    ReachedParts(h, before);
    RegisteredTarget(before, 2);
    CopyReads(h, before, 1);
    OwnBlobsAdmissible(h, before, before.catalog[1].obj, 2);
    assert before.placements[1].obj == 1 && CopyOptions(before.placements[1], OWN_BLOBS) == OWN_BLOBS;
    MoveOkIff(before, h, before.placements[1], 2, OWN_BLOBS);
    assert AvailablePlacements(before.placements, 1) == {1};
    MoveLosesFloor(before, h, 1, 2, OWN_BLOBS, NO_FAULTS, NO_FAULTS);
    MoveReached(h, before, before.placements[1]);
    var (r, moved) := Move(before, h, before.placements[1], 2, OWN_BLOBS, NO_FAULTS, NO_FAULTS);
    mid, copy := moved, r.value;
    EvictReached(h, mid, copy.id);
    after := Evict(mid, copy.id, NO_FAULTS).1;
  }

  // ----- Sharing a blob of another disk, unverified -----

  lemma NotShared(h: Hash, f: Fabric)
    requires Placed(h, f)
    ensures !SharedHere(f.blobs, f.stores[2], h, CONTENT, 0, 1)
  {
    assert CONTENT[0..1] == CONTENT;
  }

  /** Eager verification refuses to share what lies on the other disk; without it the publication goes through and
      its placement has no bytes. */
  lemma MissingBytes(h: Hash) returns (f: Fabric, obj: Object, g: Fabric)
    requires NonZero(h)
    ensures Reached(h, f) && obj.id in f.catalog && Registered(f, 2)
    ensures Publish(f, h, obj, CONTENT, 2, SHARED, NO_FAULTS).0.Err?
    ensures Publish(f, h, obj, CONTENT, 2, UNVERIFIED, NO_FAULTS).0.Ok?
    ensures g == Publish(f, h, obj, CONTENT, 2, UNVERIFIED, NO_FAULTS).1 && !Safe(g, h)
  {
    hide Reached, Publish, Safe, Conserved, Ahead, Durable, Wired, Eligible, NonZero, NonZeroDigests, SharedHere,
      Registered;
    f := Place(h);
    obj := f.catalog[1].obj;
    ReachedParts(h, f);
    RegisteredTarget(f, 2);
    NotShared(h, f);
    OwnBlobsAdmissible(h, f, obj, 2);
    PublishOkIff(f, h, obj, CONTENT, 2, SHARED);
    PublishOkIff(f, h, obj, CONTENT, 2, UNVERIFIED);
    UnverifiedSafeIff(f, h, obj, CONTENT, 2, UNVERIFIED);
    g := Publish(f, h, obj, CONTENT, 2, UNVERIFIED, NO_FAULTS).1;
  }

  // ----- Moving an evicted placement -----

  lemma Shared(h: Hash, f: Fabric)
    requires Placed(h, f)
    ensures SharedHere(f.blobs, f.stores[1], h, CONTENT, 0, 1)
  {
    assert CONTENT[0..1] == CONTENT;
  }

  /** Two copies of the object in one blob. */
  ghost predicate PlacedTwice(h: Hash, f: Fabric) {
    && OneObject(f) && TwoDisks(f) && f.placements.Keys == {1, 2} && CopyAt(h, f, 1) && CopyAt(h, f, 2)
    && f.placements[1].lifecycle == f.placements[2].lifecycle == AVAILABLE
    && 1 in f.stores[1] && f.stores[1][1] == CONTENT
  }

  lemma SecondCopy(h: Hash, start: Fabric, f: Fabric, obj: Object, p: Placement)
    requires Placed(h, start) && obj == start.catalog[1].obj && Durable(start)
    requires Succeeded(start, f, h, obj, CONTENT, 1, SHARED, NO_FAULTS, p)
    requires Charged(start.ledger, f.ledger, 1, 1) && f.ledger.allowance == 0
    ensures PlacedTwice(h, f)
  {
    hide Keep, WriteFrom, VerifyFrom, ChunkFor, OnlyChunk, ManifestBytes, WithPlacement, Durable, Registered;
    WriteOne(h, start.blobs, start.stores[1], true);
    SharedBlob(h, start);
    RequiredAfter(start, f, h, obj, CONTENT, 1, SHARED, NO_FAULTS, p);
    EntryKept(start, start.catalog[1], p);
  }

  lemma SharedBlob(h: Hash, f: Fabric)
    requires Placed(h, f)
    ensures Keep(f.blobs, f.stores[1], h, CONTENT, true, NO_FAULTS).id == 1
    ensures Keep(f.blobs, f.stores[1], h, CONTENT, true, NO_FAULTS).store == f.stores[1]
    ensures ChunkFor(CONTENT, 0, 1, h(CONTENT), 1) == OnlyChunk(h)
  {}

  lemma PlaceTwice(h: Hash) returns (f: Fabric)
    requires NonZero(h)
    ensures Reached(h, f) && PlacedTwice(h, f)
  {
    hide Reached, Publish, Eligible, NonZero, NonZeroDigests, Succeeded, PlacedTwice, Charged, Safe, Wired, Conserved,
      Ahead, Durable, NoCollision, SharedHere, Registered, OnlyChunk;
    var start := Place(h);
    var obj := start.catalog[1].obj;
    ReachedParts(h, start);
    ReservedNone(start);
    RegisteredTarget(start, 1);
    Shared(h, start);
    OwnBlobsAdmissible(h, start, obj, 1);
    PublishOkIff(start, h, obj, CONTENT, 1, SHARED);
    PublishReached(h, start, obj, SHARED);
    PublishEffect(start, h, obj, CONTENT, 1, SHARED, NO_FAULTS);
    PublishLedger(start, h, obj, CONTENT, 1, SHARED, NO_FAULTS);
    f := Publish(start, h, obj, CONTENT, 1, SHARED, NO_FAULTS).1;
    SecondCopy(h, start, f, obj, Publish(start, h, obj, CONTENT, 1, SHARED, NO_FAULTS).0.value);
  }

  /** With two live copies and one required, the first may be evicted. */
  lemma FirstEvicted(h: Hash, f: Fabric)
    requires PlacedTwice(h, f) && Durable(f)
    ensures var (o, g) := Evict(f, 1, NO_FAULTS);
      && o == Pass && OneObject(g) && TwoDisks(g) && CopyAt(h, g, 1) && CopyAt(h, g, 2)
      && !Live(g.placements[1]) && g.placements.Keys == {1, 2} && g.placements[2].lifecycle == AVAILABLE
  {
    hide Durable, DropAll, BlobsOf, OnlyChunk, WithoutReplica, DomainsOf, ComputeState;
    LiveCount(f, 1);
    TwoLive(f, 1, 1, 2);
  }

  /** The other copy keeps the shared blob. */
  lemma BlobStays(h: Hash, f: Fabric, g: Fabric)
    requires Preserves(f, g) && PlacedTwice(h, f) && CopyAt(h, g, 2) && Live(g.placements[2])
    ensures 1 in g.stores && 1 in g.stores[1] && g.stores[1][1] == CONTENT
  {
    assert SameBytes(f, g, f.placements[2]);
    assert OnlyChunk(h) in f.manifests[2].chunks;
  }

  /** Two copies share a blob, one is evicted, and moving that one goes through: the blob is then counted once for two
      placements, and blob safety is gone. */
  lemma EvictedMoved(h: Hash) returns (f: Fabric, copy: Placement, g: Fabric)
    requires NonZero(h)
    ensures Reached(h, f) && Registered(f, 2) && 1 in f.placements && f.placements[1].lifecycle == EVICTED
    ensures Move(f, h, f.placements[1], 2, OWN_BLOBS, NO_FAULTS, NO_FAULTS) == (Ok(copy), g)
    ensures !Safe(g, h)
  {
    hide Reached, Keyed, Move, Evict, Safe, Conserved, Ahead, Durable, Wired, Exact, Admissible, Eligible,
      NonZeroDigests, NonZero, ReadById, OnlyChunk, Registered;
    var twice := PlaceTwice(h);
    ReachedParts(h, twice);
    FirstEvicted(h, twice);
    EvictReached(h, twice, 1);
    f := Evict(twice, 1, NO_FAULTS).1;
    ReachedParts(h, f);
    RegisteredTarget(f, 2);
    EvictPreserves(twice, h, 1, NO_FAULTS);
    BlobStays(h, twice, f);
    CopyReads(h, f, 1);
    OwnBlobsAdmissible(h, f, f.catalog[1].obj, 2);
    assert CopyOptions(f.placements[1], OWN_BLOBS) == OWN_BLOBS;
    MoveOkIff(f, h, f.placements[1], 2, OWN_BLOBS);
    MoveSafeIff(f, h, f.placements[1], 2, OWN_BLOBS, NO_FAULTS, NO_FAULTS);
    var (r, moved) := Move(f, h, f.placements[1], 2, OWN_BLOBS, NO_FAULTS, NO_FAULTS);
    copy, g := r.value, moved;
  }

  // ----- Recovering a running runtime from an older file -----

  lemma EvictedLater(f: Fabric, h: Hash, id: Id)
    requires Steady(f, h)
    ensures Later(f, Evict(f, id, NO_FAULTS).1)
  {
    hide Steady, Evict, SameRecord, SameBytes;
    EvictSteady(f, h, id, NO_FAULTS);
    EvictManifests(f, id, NO_FAULTS);
  }

  lemma TwoCounted(h: Hash, f: Fabric)
    requires PlacedTwice(h, f) && Durable(f)
    ensures f.catalog[1].replicaSet.required < f.catalog[1].replicaSet.authoritative
  {
    hide Durable, OnlyChunk;
    LiveCount(f, 1);
    TwoLive(f, 1, 1, 2);
  }

  /** The older replica set counts a copy that has been evicted, so evict gives up the other one. */
  lemma LastEvicted(g: Fabric)
    requires g.placements.Keys == {1, 2} && !Live(g.placements[1]) && g.placements[2].lifecycle == AVAILABLE
    requires g.placements[2].obj == 1 && 1 in g.catalog && g.catalog[1].replicaSet.required < g.catalog[1].replicaSet.authoritative
    ensures AvailablePlacements(g.placements, 1) == {2} && Evict(g, 2, NO_FAULTS).0 == Pass
    ensures AvailablePlacements(Evict(g, 2, NO_FAULTS).1.placements, 1) == {}
  {
    hide Evicted;
    EvictedShape(g, 2, NO_FAULTS);
  }

  /** Two copies, saved; one is evicted; the same process recovers its file. Its replica sets are then out of step: evict
      lets go of the last AVAILABLE copy. */
  lemma LostByRecovering(h: Hash) returns (e: Fabric, s: Snapshot, o: Orders, f: Fabric, order: seq<Id>, g: Fabric)
    requires NonZero(h)
    ensures Reached(h, e) && SnapshotOf(e, s, o) && Evict(e, 1, NO_FAULTS) == (Pass, f) && Recovered(f, s, 9, order, g)
    ensures !Durable(g) && AvailablePlacements(g.placements, 1) == {2} && Evict(g, 2, NO_FAULTS).0 == Pass
    ensures AvailablePlacements(Evict(g, 2, NO_FAULTS).1.placements, 1) == {}
  {
    hide Reached, Evict, Safe, Conserved, Ahead, Durable, Wired, Keyed, Exact, NonZero, OnlyChunk, SnapshotOf, Recovered, Later,
      Reset, Enumerates, Raised, ChunksOf, Listing;
    e := PlaceTwice(h);
    ReachedParts(h, e);
    FirstEvicted(h, e);
    EvictReached(h, e, 1);
    f := Evict(e, 1, NO_FAULTS).1;
    ReachedParts(h, f);
    EvictedLater(e, h, 1);
    s, o := SnapshotExists(e);
    order, g := RecoveredExists(f, s, 9);
    LiveParts(e, f, h, s, o, 9, order, g);
    SetAgain(e, f, g);
    TwoCounted(h, e);
    LastEvicted(g);
    LiveDurableIff(e, f, h, s, o, 9, order, g);
    NotUpToDate(e, f);
  }

  lemma SetAgain(e: Fabric, f: Fabric, g: Fabric)
    requires Reset(e.catalog, f.catalog, g.catalog) && 1 in e.catalog && 1 in f.catalog
    ensures 1 in g.catalog && g.catalog[1].replicaSet == e.catalog[1].replicaSet
  {}

  lemma NotUpToDate(e: Fabric, f: Fabric)
    requires 1 in e.catalog && 1 in f.catalog && 1 in e.placements && 1 in f.placements
    requires Live(e.placements[1]) && e.placements[1].obj == 1 && !Live(f.placements[1])
    ensures !UpToDate(e, f, 1)
  {
    assert 1 in LivePlacements(e.placements, 1) && 1 !in LivePlacements(f.placements, 1);
  }

  // ----- Stuck after recovery -----

  /** One live placement, recovered in a new process over the same disks. */
  lemma RestartPlaced(h: Hash) returns (f: Fabric, blank: Fabric, s: Snapshot, o: Orders, order: seq<Id>, g: Fabric)
    requires NonZero(h)
    ensures Reached(h, f) && Placed(h, f) && Sound(f, h) && Restarted(f, g, blank, s, o, 9, order)
    ensures 1 in g.catalog && g.catalog[1].obj == f.catalog[1].obj
    ensures Admissible(g, h, g.catalog[1].obj, CONTENT, 2, OWN_BLOBS.(authority := NIL))
  {
    hide Reached, Sound, Safe, Wired, Conserved, Ahead, Durable, Keyed, Started, SnapshotOf, Recovered, Admissible, NonZero,
      OnlyChunk, SameCatalog, L.Balanced, Registered, Exact, Preserves, SameObjects, InUse;
    f := Place(h);
    var disks := AddDisks(h);
    ReachedSound(h, f);
    ReachedParts(h, f);
    ReachedParts(h, disks);
    blank := disks.(stores := f.stores);
    StartedOver(disks, f.stores);
    s, o := SnapshotExists(f);
    order, g := RecoveredExists(blank, s, 9);
    RestartContinues(f, g, h, blank, s, o, 9, order);
    RestartedParts(f, g, h, blank, s, o, 9, order);
    RecoveredObject(h, f, g);
    AdmissibleAgain(h, f, g, s, blank, order);
  }

  /** A new process over the same disks recovers one live placement. Its accounts do not know the bytes; publishing
      the recovered object, though admissible, and defining another meet ids that are taken. */
  lemma StuckAfterRecovery(h: Hash) returns (f: Fabric, blank: Fabric, s: Snapshot, o: Orders, order: seq<Id>, g: Fabric)
    requires NonZero(h)
    ensures Reached(h, f) && Restarted(f, g, blank, s, o, 9, order) && 1 in g.catalog
    ensures Admissible(g, h, g.catalog[1].obj, CONTENT, 2, OWN_BLOBS.(authority := NIL))
    ensures !GoesThrough(g, h, g.catalog[1].obj, CONTENT, 2, OWN_BLOBS.(authority := NIL))
    ensures DefineObject(g, h, 0, 1, CONTENT, AUTH, 1, 0).0 == Err(DuplicateIdentity)
    ensures !Conserved(g)
  {
    hide Reached, Sound, Conserved, Restarted, Admissible, NonZero, GoesThrough, OnlyChunk, DefineObject;
    f, blank, s, o, order, g := RestartPlaced(h);
    SoundSteady(f, h);
    RestartedPublishIff(f, g, h, blank, s, o, 9, order, g.catalog[1].obj, CONTENT, 2, OWN_BLOBS.(authority := NIL));
    RestartedDefineIff(f, g, h, blank, s, o, 9, order, 0, 1, CONTENT, AUTH, 1, 0);
    RestartedConservedIff(f, g, h, blank, s, o, 9, order);
  }

  lemma SoundSteady(f: Fabric, h: Hash)
    requires Sound(f, h)
    ensures Steady(f, h)
  {
    hide Safe, Wired, Durable, Tallied;
  }

  lemma StartedOver(disks: Fabric, stores: map<Id, Store>)
    requires Disks(disks) && Wired(disks) && Conserved(disks) && stores.Keys == {1, 2}
    ensures Started(disks.(stores := stores))
  {
    hide L.Balanced, Occupied;
    var blank := disks.(stores := stores);
    forall b | b in blank.stores
      ensures Registered(blank, b)
    {
      assert Registered(disks, b);
    }
  }

  lemma RecoveredObject(h: Hash, f: Fabric, g: Fabric)
    requires Placed(h, f) && SameCatalog(f.catalog, g.catalog, f.placements)
    ensures 1 in g.catalog && g.catalog[1].obj == f.catalog[1].obj
  {}

  lemma AdmissibleAgain(h: Hash, f: Fabric, g: Fabric, s: Snapshot, blank: Fabric, order: seq<Id>)
    requires Placed(h, f) && g.stores == f.stores && 1 in g.catalog && g.catalog[1].obj == f.catalog[1].obj
    requires Disks(blank.(stores := map[1 := map[], 2 := map[]])) && g.ledger == blank.ledger
    requires Recovered(blank, s, 9, order, g) && Safe(g, h) && NonZero(h)
    ensures Admissible(g, h, g.catalog[1].obj, CONTENT, 2, OWN_BLOBS.(authority := NIL))
  {
    hide WithObjects, WithSets, AttachedAll, WithManifests, WithPlacements, WithBackends, IndexAll, ChunksOf, Raised,
      OnlyChunk, Safe, NonZero, NonZeroDigests;
    NoZeroDigests(h, g, g.catalog[1].obj, CONTENT, 2, OWN_BLOBS.(authority := NIL));
  }
}
