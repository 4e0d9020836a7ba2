/** What verify answers: yes while the stored bytes are the published ones, no once any of them changed, or when they
    never had the digest of their descriptor. */
module Integrity {
  import opened Bytes
  import opened Status
  import opened Model
  import opened Manifests
  import opened BlobStore
  import opened Runtime
  import opened Effects
  import opened Safety
  import opened ReadBack

  // ----- The stored bytes of a manifest -----

  ghost predicate Holds(store: Store, cs: seq<Chunk>) {
    forall c <- cs :: c.blob in store
  }

  /** The stored chunks, one after the other. */
  ghost function StoredBytes(store: Store, cs: seq<Chunk>): bytes
    requires Holds(store, cs)
  {
    if cs == [] then [] else StoredBytes(store, cs[..|cs| - 1]) + store[cs[|cs| - 1].blob]
  }

  lemma {:induction false} StoredFront(store: Store, cs: seq<Chunk>)
    requires cs != [] && Holds(store, cs)
    ensures StoredBytes(store, cs) == store[cs[0].blob] + StoredBytes(store, cs[1..])
  {
    if |cs| > 1 {
      var front := cs[..|cs| - 1];
      StoredFront(store, front);
      assert front[1..] == cs[1..][..|cs| - 2];
    } else {
      assert cs[..0] == [] && cs[1..] == [];
    }
  }

  /** verify hashes the stored bytes; a blob that is missing is an I/O error. */
  lemma {:induction false} VerifyBytesMeans(store: Store, cs: seq<Chunk>, i: nat)
    requires i <= |cs|
    ensures VerifyBytes(store, cs, i, NO_FAULTS) ==
      if Holds(store, cs[i..]) then Ok(StoredBytes(store, cs[i..])) else Err(IoError)
    decreases |cs| - i
  {
    if i < |cs| {
      VerifyBytesMeans(store, cs, i + 1);
      assert cs[i..] == [cs[i]] + cs[i + 1..];
      if Holds(store, cs[i..]) {
        StoredFront(store, cs[i..]);
      }
    }
  }

  /** Each blob has the length its chunk records. */
  ghost predicate InLength(store: Store, cs: seq<Chunk>)
    requires Holds(store, cs)
  {
    forall c <- cs :: |store[c.blob]| == c.physicalLength
  }

  /** read returns them, if all have their recorded length. */
  lemma {:induction false} ReadFromMeans(store: Store, cs: seq<Chunk>, i: nat)
    requires i <= |cs| && Holds(store, cs[i..])
    ensures ReadFrom(store, cs, i, NO_FAULTS) ==
      if InLength(store, cs[i..]) then Ok(StoredBytes(store, cs[i..])) else Err(LengthMismatch)
    decreases |cs| - i
  {
    hide Holds, InLength, StoredBytes;
    if i == |cs| {
      NothingStored(store, cs[i..]);
    } else {
      HoldsCons(store, cs, i);
      ReadFromMeans(store, cs, i + 1);
    }
  }

  lemma NothingStored(store: Store, cs: seq<Chunk>)
    requires cs == []
    ensures Holds(store, cs) && InLength(store, cs) && StoredBytes(store, cs) == []
  {}

  lemma HoldsCons(store: Store, cs: seq<Chunk>, i: nat)
    requires i < |cs| && Holds(store, cs[i..])
    ensures cs[i].blob in store && Holds(store, cs[i + 1..])
    ensures InLength(store, cs[i..]) <==> |store[cs[i].blob]| == cs[i].physicalLength && InLength(store, cs[i + 1..])
    ensures StoredBytes(store, cs[i..]) == store[cs[i].blob] + StoredBytes(store, cs[i + 1..])
  {
    hide StoredBytes;
    assert cs[i..] == [cs[i]] + cs[i + 1..] && cs[i..][1..] == cs[i + 1..];
    StoredFront(store, cs[i..]);
  }

  /** Whatever read returns, verify compares its digest with the record's. */
  lemma VerifyMeans(f: Fabric, h: Hash, id: Id, data: bytes)
    requires ReadById(f, id, NO_FAULTS) == Ok(data)
    ensures VerifyPlacement(f, h, id, NO_FAULTS) == Ok(h(data) == f.placements[id].digest)
  {
    hide ReadFrom, VerifyBytes;
    var p := f.placements[id];
    VerifyReads(f.stores[p.backend], f.manifests[p.manifest].chunks, 0, NO_FAULTS);
  }

  // ----- Damage -----

  function Altered(store: Store, blob: Id, other: bytes): Store {
    store[blob := other]
  }

  /** A blob of one backend has other bytes. */
  function Damaged(f: Fabric, backend: Id, blob: Id, other: bytes): Fabric
    requires backend in f.stores
  {
    f.(stores := f.stores[backend := Altered(f.stores[backend], blob, other)])
  }

  predicate Names(cs: seq<Chunk>, blob: Id) {
    exists c <- cs :: c.blob == blob
  }

  lemma SplitEqual(a: bytes, x: bytes, b: bytes, y: bytes)
    requires |a| == |b| || |x| == |y|
    ensures a + x == b + y <==> a == b && x == y
  {
    if a + x == b + y {
      assert |a + x| == |b + y|;
      assert a == (a + x)[..|a|] && b == (b + y)[..|b|];
      assert x == (a + x)[|a|..] && y == (b + y)[|b|..];
    }
  }

  /** -1, 0 or 1 as m is less than, equal to or greater than n. */
  function Sign(m: nat, n: nat): int {
    if m < n then -1 else if m == n then 0 else 1
  }

  /** Other bytes in a blob always show in the whole: of another length they change the length, of the same length
      they change some byte in its place. */
  lemma {:induction false} DamageShows(store: Store, cs: seq<Chunk>, blob: Id, other: bytes)
    requires Holds(store, cs) && blob in store
    ensures var (now, was) := (StoredBytes(Altered(store, blob, other), cs), StoredBytes(store, cs));
      && Sign(|now|, |was|) == (if Names(cs, blob) then Sign(|other|, |store[blob]|) else 0)
      && (now == was <==> (other == store[blob] || !Names(cs, blob)))
  {
    if cs != [] {
      var n := |cs| - 1;
      var front, last := cs[..n], cs[n];
      assert cs == front + [last];
      DamageShows(store, front, blob, other);
      assert Names(cs, blob) <==> Names(front, blob) || last.blob == blob;
      var a, b := StoredBytes(Altered(store, blob, other), front), StoredBytes(store, front);
      var x, y := Altered(store, blob, other)[last.blob], store[last.blob];
      if |a| == |b| || |x| == |y| {
        SplitEqual(a, x, b, y);
      } else {
        assert |a + x| != |b + y|;
      }
    }
  }

  /** The placement's chunks, on its backend. */
  ghost predicate Placed(f: Fabric, p: Placement) {
    p.manifest in f.manifests && p.backend in f.stores && Holds(f.stores[p.backend], f.manifests[p.manifest].chunks)
  }

  ghost function PlacedBytes(f: Fabric, p: Placement): bytes
    requires Placed(f, p)
  {
    StoredBytes(f.stores[p.backend], f.manifests[p.manifest].chunks)
  }

  /** The placement keeps one of its chunks in that blob of that backend. */
  predicate KeptIn(f: Fabric, p: Placement, backend: Id, blob: Id) {
    p.backend == backend && p.manifest in f.manifests && Names(f.manifests[p.manifest].chunks, blob)
  }

  lemma {:induction false} ReadsHolds(store: Store, cs: seq<Chunk>, i: nat)
    requires i <= |cs| && ReadFrom(store, cs, i, NO_FAULTS).Ok?
    ensures Holds(store, cs[i..]) && forall c <- cs[i..] :: |store[c.blob]| == c.physicalLength
    decreases |cs| - i
  {
    if i < |cs| {
      ReadsHolds(store, cs, i + 1);
      assert cs[i..] == [cs[i]] + cs[i + 1..];
    }
  }

  /** verify compares the digest of the bytes that are there, whatever their length. */
  lemma VerifyPlaced(f: Fabric, h: Hash, id: Id)
    requires id in f.placements && Placed(f, f.placements[id])
    ensures VerifyPlacement(f, h, id, NO_FAULTS) == Ok(h(PlacedBytes(f, f.placements[id])) == f.placements[id].digest)
  {
    hide VerifyBytes;
    var cs := f.manifests[f.placements[id].manifest].chunks;
    VerifyBytesMeans(f.stores[f.placements[id].backend], cs, 0);
    assert cs[0..] == cs;
  }

  /** What an honest placement reads as is what it stores, each chunk in its length. */
  lemma HonestPlaced(f: Fabric, h: Hash, id: Id)
    requires id in f.placements && HonestAt(f, h, id)
    ensures var p := f.placements[id];
      && Placed(f, p) && ReadById(f, id, NO_FAULTS) == Ok(PlacedBytes(f, p)) && h(PlacedBytes(f, p)) == p.digest
      && |PlacedBytes(f, p)| == f.manifests[p.manifest].total
      && forall c <- f.manifests[p.manifest].chunks :: |f.stores[p.backend][c.blob]| == c.physicalLength
  {
    hide ReadFrom;
    var p := f.placements[id];
    var cs := f.manifests[p.manifest].chunks;
    assert cs[0..] == cs;
    ReadsHolds(f.stores[p.backend], cs, 0);
    ReadFromMeans(f.stores[p.backend], cs, 0);
  }

  /** verify finds exactly the damaged placements: once a blob has other bytes, of any length, it says no of every honest
      placement that keeps a chunk in that blob, and still yes of every other. */
  lemma DamageFound(f: Fabric, h: Hash, backend: Id, blob: Id, other: bytes, id: Id)
    requires backend in f.stores && blob in f.stores[backend] && other != f.stores[backend][blob]
    requires id in f.placements && HonestAt(f, h, id)
    ensures var p, g := f.placements[id], Damaged(f, backend, blob, other);
      && Placed(f, p) && Placed(g, p)
      && (PlacedBytes(g, p) == PlacedBytes(f, p) <==> !KeptIn(f, p, backend, blob))
      && (Separates(h, PlacedBytes(g, p), PlacedBytes(f, p)) ==>
            VerifyPlacement(g, h, id, NO_FAULTS) == Ok(!KeptIn(f, p, backend, blob)))
  {
    hide VerifyPlacement, StoredBytes, ReadById, Names;
    HonestPlaced(f, h, id);
    var p, g := f.placements[id], Damaged(f, backend, blob, other);
    if p.backend == backend {
      DamageShows(f.stores[backend], f.manifests[p.manifest].chunks, blob, other);
    }
    VerifyPlaced(g, h, id);
  }

  /** read only notices a change of length: other bytes of the same length are returned as they are. */
  lemma DamageRead(f: Fabric, h: Hash, backend: Id, blob: Id, other: bytes, id: Id)
    requires backend in f.stores && blob in f.stores[backend] && other != f.stores[backend][blob]
    requires id in f.placements && HonestAt(f, h, id)
    ensures var p, g := f.placements[id], Damaged(f, backend, blob, other);
      && Placed(g, p)
      && ReadById(g, id, NO_FAULTS) ==
           if KeptIn(f, p, backend, blob) && |other| != |f.stores[backend][blob]| then Err(LengthMismatch)
           else Ok(PlacedBytes(g, p))
  {
    hide ReadFrom, StoredBytes;
    HonestPlaced(f, h, id);
    var p, g := f.placements[id], Damaged(f, backend, blob, other);
    var cs := f.manifests[p.manifest].chunks;
    assert cs[0..] == cs;
    if p.backend == backend {
      DamageShows(f.stores[backend], cs, blob, other);
    }
    ReadFromMeans(g.stores[p.backend], cs, 0);
  }

  function Lost(f: Fabric, backend: Id, blob: Id): Fabric
    requires backend in f.stores
  {
    f.(stores := f.stores[backend := f.stores[backend] - {blob}])
  }

  /** A blob that is gone is an I/O error to verify and to read, of exactly the placements that kept a chunk in it. */
  lemma LossFound(f: Fabric, h: Hash, backend: Id, blob: Id, id: Id)
    requires backend in f.stores && id in f.placements && HonestAt(f, h, id)
    ensures var g := Lost(f, backend, blob);
      VerifyPlacement(g, h, id, NO_FAULTS) == if KeptIn(f, f.placements[id], backend, blob) then Err(IoError) else Ok(true)
  {
    hide VerifyBytes, StoredBytes, ReadById;
    HonestPlaced(f, h, id);
    var p, g := f.placements[id], Lost(f, backend, blob);
    var cs := f.manifests[p.manifest].chunks;
    assert cs[0..] == cs;
    VerifyBytesMeans(f.stores[p.backend], cs, 0);
    VerifyBytesMeans(g.stores[p.backend], cs, 0);
    if !KeptIn(f, p, backend, blob) {
      SameStored(f.stores[p.backend], g.stores[p.backend], cs);
    }
  }

  lemma {:induction false} SameStored(s: Store, t: Store, cs: seq<Chunk>)
    requires Holds(s, cs) && Holds(t, cs) && forall c <- cs :: s[c.blob] == t[c.blob]
    ensures StoredBytes(s, cs) == StoredBytes(t, cs)
  {
    if cs != [] {
      SameStored(s, t, cs[..|cs| - 1]);
    }
  }

  // ----- What was published -----

  /** After a publication verify says whether the content had its descriptor's digest, which publish_to does not look at. */
  lemma PublishVerifies(f: Fabric, h: Hash, obj: Object, content: bytes, backend: Id, opts: Options, faults: Faults)
    requires (backend in f.stores ==> Registered(f, backend)) && obj.id in f.catalog && opts.eagerVerify
    requires Publish(f, h, obj, content, backend, opts, faults).0.Ok?
    requires var g := Publish(f, h, obj, content, backend, opts, faults).1;
      backend in g.stores && NoCollision(g.stores[backend], h, content)
    ensures var (r, g) := Publish(f, h, obj, content, backend, opts, faults);
      VerifyPlacement(g, h, r.value.id, NO_FAULTS) == Ok(h(content) == obj.digest)
  {
    hide Publish, Chunking, VerifyFrom, VerifyPlacement, BuiltManifest, WithPlacement, ReadById, NoCollision;
    PublishEffect(f, h, obj, content, backend, opts, faults);
    var (r, g) := Publish(f, h, obj, content, backend, opts, faults);
    PublishReads(f, g, h, obj, content, backend, opts, faults, r.value);
    VerifyMeans(g, h, r.value.id, content);
  }

  /** And it keeps saying so, until the placement is evicted. */
  lemma VerifyLater(f: Fabric, g: Fabric, h: Hash, id: Id, data: bytes)
    requires Preserves(f, g) && ReadById(f, id, NO_FAULTS) == Ok(data) && id in g.placements && Live(g.placements[id])
    ensures VerifyPlacement(g, h, id, NO_FAULTS) == Ok(h(data) == f.placements[id].digest)
  {
    hide ReadById, VerifyPlacement, SameBytes;
    assert id in f.placements by { ReadsPlaced(f, id); }
    SameRead(f, g, id, NO_FAULTS);
    VerifyMeans(g, h, id, data);
  }

  lemma ReadsPlaced(f: Fabric, id: Id)
    requires ReadById(f, id, NO_FAULTS).Ok?
    ensures id in f.placements
  {}

  /** The descriptor of a defined object: digest and size of the content, who wrote it, and what it asks
      for; by a RUNNER (1), of no preferred storage class (7), to be kept as LRU_CLASS (3). */
  lemma DefinedDescribes(f: Fabric, h: Hash, kind: Enum, content: bytes, writer: Authority, minReplicas: nat, priority: Enum)
    requires 0 < |content| < TWO_64 && f.ids.obj !in f.catalog
    ensures var (r, g) := DefineObject(f, h, kind, |content|, content, writer, minReplicas, priority);
      && r.Ok? && r.value.id == f.ids.obj && r.value.id in g.catalog && g.catalog[r.value.id].obj == r.value
      && r.value.digest == h(content) && r.value.logicalSize == |content| && r.value.kind == kind
      && r.value.provenance.worker == writer.worker && r.value.provenance.boot == writer.boot
      && r.value.provenance.generation == writer.generation && r.value.provenance.origin == 1
      && r.value.provenance.creator == Text("runner")
      && r.value.generation == r.value.owner == 1 && r.value.preferred == 7 && r.value.createdAt == 0
      && r.value.minReplicas == minReplicas && r.value.restorePriority == priority
      && r.value.policyGeneration == f.policyGeneration && r.value.retention == 3
      && g.catalog[r.value.id].replicaSet.required >= 1 && g.catalog[r.value.id].replicaSet.required >= minReplicas
  {}

  /** And what define_object refuses: sizes that disagree, empty content, an id that is taken. */
  lemma DefineAnswers(f: Fabric, h: Hash, kind: Enum, size: nat, content: bytes, writer: Authority, minReplicas: nat, priority: Enum)
    requires |content| < TWO_64
    ensures var (r, g) := DefineObject(f, h, kind, size, content, writer, minReplicas, priority);
      && (|content| != size ==> r == Err(LengthMismatch) && g == f)
      && (|content| == size == 0 ==> r == Err(InvalidArgument) && g == f)
      && (|content| == size > 0 && f.ids.obj in f.catalog ==>
            r == Err(DuplicateIdentity) && g == f.(ids := f.ids.(obj := f.ids.obj + 1)))
  {
    hide Text;
  }

  /** Define an object over some content and publish other content under it: verify says yes exactly when both have the
      same digest, and so of the same content always. */
  lemma DefinePublishVerify(f: Fabric, h: Hash, kind: Enum, content: bytes, writer: Authority, minReplicas: nat, priority: Enum,
                            published: bytes, backend: Id, opts: Options, faults: Faults)
    requires 0 < |content| < TWO_64 && f.ids.obj !in f.catalog && opts.eagerVerify
    requires backend in f.stores ==> Registered(f, backend)
    requires var (d, g) := DefineObject(f, h, kind, |content|, content, writer, minReplicas, priority);
      && (backend in g.stores ==> Registered(g, backend))
      && Publish(g, h, d.value, published, backend, opts, faults).0.Ok?
      && var k := Publish(g, h, d.value, published, backend, opts, faults).1;
         backend in k.stores && NoCollision(k.stores[backend], h, published)
    ensures var (d, g) := DefineObject(f, h, kind, |content|, content, writer, minReplicas, priority);
      var (r, k) := Publish(g, h, d.value, published, backend, opts, faults);
      VerifyPlacement(k, h, r.value.id, NO_FAULTS) == Ok(h(published) == h(content))
  {
    hide Publish, VerifyPlacement, NoCollision;
    var (d, g) := DefineObject(f, h, kind, |content|, content, writer, minReplicas, priority);
    DefinedDescribes(f, h, kind, content, writer, minReplicas, priority);
    PublishVerifies(g, h, d.value, published, backend, opts, faults);
  }
}
