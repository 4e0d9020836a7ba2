/** Under which authority a publication may write, whatever else it meets. */
module Writers {
  import opened Bytes
  import opened Status
  import opened Model
  import opened AuthorityOrder
  import opened Manifests
  import opened BlobStore
  import opened Runtime
  import opened Effects
  import opened Safety
  import opened Conservation
  import opened Durability
  import opened Admission
  import opened Runs
  import opened Requests
  import L = Ledger
  import I = Integrity
  import U = Publications

  // ----- Publications -----

  /** An older writer is refused, and leaves nothing behind. */
  lemma StaleWriterRefused(f: Fabric, h: Hash, obj: Object, content: bytes, backend: Id, opts: Options, faults: Faults)
    requires (backend in f.stores ==> Registered(f, backend)) && |content| == obj.logicalSize
    requires !opts.authority.IsNil() && Newer(f.authority, opts.authority)
    ensures Publish(f, h, obj, content, backend, opts, faults) == (Err(StaleAuthority), f)
  {
    hide PublishReserved, L.Reserve, L.Release;
  }

  /** Without any authority nothing is written. */
  lemma NoAuthorityRefused(f: Fabric, h: Hash, obj: Object, content: bytes, backend: Id, opts: Options, faults: Faults)
    requires (backend in f.stores ==> Registered(f, backend)) && |content| == obj.logicalSize
    requires opts.authority.IsNil() && f.authority.IsNil()
    ensures Publish(f, h, obj, content, backend, opts, faults) == (Err(InvalidArgument), f)
  {
    hide PublishReserved, L.Reserve, L.Release;
  }

  /** A writer that names no authority acts under the runtime's. */
  lemma NilActsAsLive(f: Fabric, h: Hash, obj: Object, content: bytes, backend: Id, opts: Options, faults: Faults)
    requires backend in f.stores ==> Registered(f, backend)
    requires opts.authority.IsNil() && !f.authority.IsNil()
    ensures Publish(f, h, obj, content, backend, opts, faults)
         == Publish(f, h, obj, content, backend, opts.(authority := f.authority), faults)
  {
    hide PublishReserved, L.Reserve, L.Release;
    if |content| == obj.logicalSize && backend in f.stores {
      var auth := f.authority;
      var (r, l) := L.Reserve(f.ledger, backend, obj.logicalSize, auth.generation, auth.worker);
      if r.Ok? {
        L.ReserveActive(f.ledger, backend, obj.logicalSize, auth.generation, auth.worker);
        SameReserved(f.(ledger := l), h, obj, content, backend, opts, auth, faults, r.value.id);
      }
    }
  }

  lemma SameReserved(f: Fabric, h: Hash, obj: Object, content: bytes, backend: Id, opts: Options, auth: Authority,
                     faults: Faults, reservation: Id)
    requires |content| == obj.logicalSize > 0 && Registered(f, backend)
    ensures PublishReserved(f, h, obj, content, backend, opts, faults, auth, reservation)
         == PublishReserved(f, h, obj, content, backend, opts.(authority := auth), faults, auth, reservation)
  {
    hide WriteFrom, VerifyFrom, Validation, BuiltManifest, NewPlacement, WithPlacement, L.Commit;
  }

  /** No failing call answers as the fence does. */
  predicate FenceSilent(faults: Faults) {
    forall b <- faults.putFails :: faults.putFails[b] != StaleAuthority
  }

  /** StaleAuthority is what an older writer gets, and nobody else. */
  lemma StaleWriterIff(f: Fabric, h: Hash, obj: Object, content: bytes, backend: Id, opts: Options, faults: Faults)
    requires (backend in f.stores ==> Registered(f, backend)) && FenceSilent(faults)
    ensures Publish(f, h, obj, content, backend, opts, faults).0 == Err(StaleAuthority) <==>
      |content| == obj.logicalSize && !opts.authority.IsNil() && Newer(f.authority, opts.authority)
  {
    hide PublishReserved, FenceSilent, L.Release;
    if |content| == obj.logicalSize && backend in f.stores {
      match ActingAuthority(f, opts.authority)
      case Err(_) =>
      case Ok(auth) =>
        L.ReserveActive(f.ledger, backend, obj.logicalSize, auth.generation, auth.worker);
        var (r, l) := L.Reserve(f.ledger, backend, obj.logicalSize, auth.generation, auth.worker);
        if r.Ok? {
          NotStale(f.(ledger := l), h, obj, content, backend, opts, faults, auth, r.value.id);
        }
    }
  }

  lemma NotStale(f: Fabric, h: Hash, obj: Object, content: bytes, backend: Id, opts: Options, faults: Faults,
                 auth: Authority, reservation: Id)
    requires |content| == obj.logicalSize > 0 && Registered(f, backend) && FenceSilent(faults)
    ensures PublishReserved(f, h, obj, content, backend, opts, faults, auth, reservation).0 != Err(StaleAuthority)
  {
    hide WriteFrom, VerifyFrom, Validation, CheckChunks, BuiltManifest, NewPlacement, WithPlacement, L.Commit, FenceSilent;
    var chunk := if opts.chunkSize == 0 then obj.logicalSize else opts.chunkSize;
    var w := WriteFrom(f.blobs, f.stores[backend], h, content, 0, chunk, opts.dedupe, faults);
    WriteNotStale(f.blobs, f.stores[backend], h, content, 0, chunk, opts.dedupe, faults);
    VerifyNotStale(w.store, h, w.chunks, 0, faults);
    ValidationNotStale(BuiltManifest(f.ids.manifest, h, obj, w.chunks));
  }

  lemma {:induction false} WriteNotStale(b: Blobs, store: Store, h: Hash, content: bytes, offset: nat, chunk: nat,
                                         dedupe: bool, faults: Faults)
    requires offset <= |content| < TWO_64 && chunk > 0 && FenceSilent(faults)
    ensures WriteFrom(b, store, h, content, offset, chunk, dedupe, faults).outcome != Fail(StaleAuthority)
    decreases |content| - offset
  {
    hide Keep, ChunkFor, FenceSilent;
    if offset < |content| {
      var n := SliceLength(content, offset, chunk);
      var slice := content[offset..offset + n];
      var k := Keep(b, store, h, slice, dedupe, faults);
      KeepNotStale(b, store, h, slice, dedupe, faults);
      WriteNotStale(k.blobs, k.store, h, content, offset + n, chunk, dedupe, faults);
    }
  }

  lemma KeepNotStale(b: Blobs, store: Store, h: Hash, slice: bytes, dedupe: bool, faults: Faults)
    requires FenceSilent(faults)
    ensures Keep(b, store, h, slice, dedupe, faults).outcome != Fail(StaleAuthority)
  {}

  lemma {:induction false} VerifyNotStale(store: Store, h: Hash, cs: seq<Chunk>, i: nat, faults: Faults)
    requires i <= |cs|
    ensures VerifyFrom(store, h, cs, i, faults) != Fail(StaleAuthority)
    decreases |cs| - i
  {
    if i < |cs| {
      VerifyNotStale(store, h, cs, i + 1, faults);
    }
  }

  lemma ValidationNotStale(m: Manifest)
    ensures Validation(m, false) != Fail(StaleAuthority)
  {
    hide CheckChunks;
    ChecksNotStale(m.chunks, m.total, {}, 0);
  }

  lemma {:induction false} ChecksNotStale(cs: seq<Chunk>, total: U64, seen: set<Id>, cursor: U64)
    ensures CheckChunks(cs, total, seen, cursor, false) != Fail(StaleAuthority)
  {
    if cs != [] {
      ChecksNotStale(cs[1..], total, seen + {cs[0].id}, WrapAdd(cs[0].offset, cs[0].logicalLength));
    }
  }

  /** A writer that may write is refused before anything is written by an unknown backend, and by one without room. */
  lemma RefusedBeforeWriting(f: Fabric, h: Hash, obj: Object, content: bytes, backend: Id, opts: Options, faults: Faults)
    requires (backend in f.stores ==> Registered(f, backend)) && |content| == obj.logicalSize && MayWrite(f, opts.authority)
    requires L.Balanced(f.ledger)
    ensures backend !in f.stores ==> Publish(f, h, obj, content, backend, opts, faults) == (Err(NotFound), f)
    ensures backend in f.stores && backend in f.ledger.backends && content == [] ==>
      Publish(f, h, obj, content, backend, opts, faults) == (Err(InvalidArgument), f)
    ensures backend in f.stores && backend in f.ledger.backends && content != [] && !Fits(f.ledger, backend, |content|) ==>
      Publish(f, h, obj, content, backend, opts, faults) == (Err(InsufficientCapacity), f)
  {
    hide PublishReserved, L.Release, L.Balanced;
    if backend in f.stores {
      var auth := if opts.authority.IsNil() then f.authority else opts.authority;
      L.ReserveKeeps(f.ledger, backend, obj.logicalSize, auth.generation, auth.worker);
    }
  }

  // ----- CREATE_OBJECT -----

  /** The content a worker sends fits on the backend, shares no blob kept elsewhere, and has no zero digest. */
  ghost predicate Storable(f: Fabric, h: Hash, backend: Id, incoming: Authority, kind: Enum, content: bytes)
    requires 0 < |content| < TWO_64
  {
    && backend in f.stores && Fits(f.ledger, backend, |content|)
    && SharedHere(f.blobs, f.stores[backend], h, content, 0, |content|)
    && NonZeroDigests(f, h, DefinedObject(f, h, kind, content, incoming, 1, PRIORITY_HIGH), content, backend, CreateOptions(incoming))
  }

  /** While no call fails a worker's object is created and placed exactly when its authority is newer than the live one,
      and its content is as long as it says and can be stored. */
  lemma CreateOkIff(f: Fabric, h: Hash, backend: Id, incoming: Authority, kind: Enum, size: nat, content: bytes)
    requires Sound(f, h) && |content| < TWO_64 && (backend in f.stores ==> Registered(f, backend))
    ensures Created(f, h, backend, incoming, kind, size, content, NO_FAULTS).0.Ok? <==>
      Newer(incoming, f.authority) && |content| == size > 0 && Storable(f, h, backend, incoming, kind, content)
  {
    hide DefineObject, Publish, DefinedObject, Safe, Durable, L.Balanced, Occupied, Newer, Storable, Admissible;
    if Newer(incoming, f.authority) && |content| == size > 0 {
      var obj := DefinedObject(f, h, kind, content, incoming, 1, PRIORITY_HIGH);
      var (d, g) := DefineObject(f, h, kind, size, content, incoming, 1, PRIORITY_HIGH);
      Defined(f, h, OpDefine(kind, size, content, incoming, 1, PRIORITY_HIGH));
      StepSound(f, h, OpDefine(kind, size, content, incoming, 1, PRIORITY_HIGH));
      DefinedNext(f, h, kind, content, incoming);
      PublishOkIff(g, h, obj, content, backend, CreateOptions(incoming));
      AdmissibleIff(f, g, h, obj, kind, content, backend, incoming);
    } else {
      CreateEffect(f, h, backend, incoming, kind, size, content, NO_FAULTS);
    }
  }

  /** The new object's publication is admissible exactly when it can be stored. */
  lemma AdmissibleIff(f: Fabric, g: Fabric, h: Hash, obj: Object, kind: Enum, content: bytes, backend: Id, incoming: Authority)
    requires g == f.(ids := g.ids, catalog := g.catalog) && g.ids.manifest == f.ids.manifest
    requires 0 < |content| < TWO_64 && obj == DefinedObject(f, h, kind, content, incoming, 1, PRIORITY_HIGH)
    requires obj.logicalSize == |content| && Newer(incoming, f.authority)
    ensures Admissible(g, h, obj, content, backend, CreateOptions(incoming)) <==> Storable(f, h, backend, incoming, kind, content)
  {
    hide DefinedObject, NonZeroDigests, SharedHere, Fits;
    if backend in f.stores {
      SameDigests(f, g, h, obj, content, backend, CreateOptions(incoming));
    }
  }

  lemma DefinedNext(f: Fabric, h: Hash, kind: Enum, content: bytes, incoming: Authority)
    requires Ahead(f) && 0 < |content| < TWO_64
    ensures var obj := DefinedObject(f, h, kind, content, incoming, 1, PRIORITY_HIGH);
      var (d, g) := DefineObject(f, h, kind, |content|, content, incoming, 1, PRIORITY_HIGH);
      && d == Ok(obj) && obj.logicalSize == |content| && obj.id in g.catalog
      && g == f.(ids := g.ids, catalog := g.catalog) && g.ids.manifest == f.ids.manifest
  {}

  lemma SameDigests(f: Fabric, g: Fabric, h: Hash, obj: Object, content: bytes, backend: Id, opts: Options)
    requires g == f.(ids := g.ids, catalog := g.catalog) && g.ids.manifest == f.ids.manifest
    requires |content| == obj.logicalSize > 0 && backend in f.stores
    ensures NonZeroDigests(g, h, obj, content, backend, opts) <==> NonZeroDigests(f, h, obj, content, backend, opts)
  {
    hide BuiltManifest, WriteFrom;
  }

  /** What an accepted request leaves behind: the object as the worker sent it, of HIGH (1) priority and wanting one copy,
      and its one placement, of the next id, written by the worker. */
  lemma CreatedRecord(f: Fabric, h: Hash, backend: Id, incoming: Authority, kind: Enum, size: nat, content: bytes, faults: Faults)
    requires Steady(f, h) && Ahead(f) && |content| < TWO_64 && (backend in f.stores ==> Registered(f, backend))
    requires Created(f, h, backend, incoming, kind, size, content, faults).0.Ok?
    ensures var (r, g) := Created(f, h, backend, incoming, kind, size, content, faults);
      && f.ids.obj in g.catalog && g.catalog[f.ids.obj].placements == [r.value.id]
      && var o, p := g.catalog[f.ids.obj].obj, r.value;
         && o.id == f.ids.obj && o.digest == h(content) && o.logicalSize == |content| == size && o.kind == kind
         && o.restorePriority == 1 && o.minReplicas == 1
         && o.provenance.worker == incoming.worker && o.provenance.boot == incoming.boot
         && p.id == f.ids.placement && p.obj == o.id && p.digest == o.digest && p.backend == backend && p.durabilityReplicas == 1
         && p.writerWorker == incoming.worker && p.writerBoot == incoming.boot && p.authorityGeneration == incoming.generation
  {
    hide DefineObject, DefinedObject, Publish, Created, Safe, Wired, Newer;
    CreateEffect(f, h, backend, incoming, kind, size, content, faults);
    var o, g, k := CreatedSteps(f, h, backend, incoming, kind, size, content, faults);
    var p := Created(f, h, backend, incoming, kind, size, content, faults).0.value;
    AheadFree(f);
    I.DefinedDescribes(f, h, kind, content, incoming, 1, PRIORITY_HIGH);
    PlacedUnder(g, h, o, content, backend, incoming, faults, k, p);
  }

  /** An accepted request, step by step. */
  lemma CreatedSteps(f: Fabric, h: Hash, backend: Id, incoming: Authority, kind: Enum, size: nat, content: bytes, faults: Faults)
    returns (o: Object, g: Fabric, k: Fabric)
    requires Ahead(f) && |content| < TWO_64 && (backend in f.stores ==> Registered(f, backend))
    requires Created(f, h, backend, incoming, kind, size, content, faults).0.Ok?
    ensures |content| == size > 0 && (Ok(o), g) == DefineObject(f, h, kind, |content|, content, incoming, 1, PRIORITY_HIGH)
    ensures o.id in g.catalog && g == f.(ids := g.ids, catalog := g.catalog) && Newer(incoming, f.authority)
    ensures g.ids.placement == f.ids.placement
    ensures Publish(g, h, o, content, backend, CreateOptions(incoming), faults)
         == (Created(f, h, backend, incoming, kind, size, content, faults).0, k)
    ensures Created(f, h, backend, incoming, kind, size, content, faults).1 == k.(authority := incoming)
  {
    hide Publish, DefinedObject, Newer;
    var (d, state) := DefineObject(f, h, kind, size, content, incoming, 1, PRIORITY_HIGH);
    o, g := d.value, state;
    DefinedNext(f, h, kind, content, incoming);
    k := Publish(g, h, o, content, backend, CreateOptions(incoming), faults).1;
  }

  lemma PlacedUnder(g: Fabric, h: Hash, o: Object, content: bytes, backend: Id, incoming: Authority, faults: Faults, k: Fabric,
                    p: Placement)
    requires (backend in g.stores ==> Registered(g, backend)) && o.id in g.catalog && o.minReplicas == 1
    requires Newer(incoming, g.authority)
    requires Publish(g, h, o, content, backend, CreateOptions(incoming), faults) == (Ok(p), k)
    ensures p.id == g.ids.placement && p.obj == o.id && p.digest == o.digest && p.backend == backend && p.durabilityReplicas == 1
    ensures p.writerWorker == incoming.worker && p.writerBoot == incoming.boot && p.authorityGeneration == incoming.generation
    ensures o.id in k.catalog && k.catalog[o.id].obj == g.catalog[o.id].obj
  {
    hide Publish, Newer, NewPlacement, WithPlacement, Text, Decimal;
    NewerNamed(incoming, g.authority);
    U.RecordIs(g, h, o, content, backend, CreateOptions(incoming), faults);
    U.PlacementRecorded(g, h, o, content, backend, CreateOptions(incoming), faults, k, p);
    U.ReplicaRecorded(g, h, o, content, backend, CreateOptions(incoming), faults, k, p);
  }

  lemma NewerNamed(a: Authority, b: Authority)
    requires Newer(a, b)
    ensures !a.IsNil()
  {}

  lemma AheadFree(f: Fabric)
    requires Ahead(f)
    ensures f.ids.obj !in f.catalog
  {}
}
