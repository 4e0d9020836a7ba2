/** recover called on a runtime that is running, with a file it saved earlier. */
module LiveRecovery {
  import opened Bytes
  import opened Status
  import opened Model
  import opened BlobStore
  import opened Sums
  import opened Runtime
  import opened Effects
  import opened Safety
  import opened Durability
  import opened ReadBack
  import opened Runs
  import opened Recovery
  import A = AfterRecovery
  import L = Ledger

  /** f is a later state of the runtime e: nothing that was recorded is missing, and no record was replaced. */
  ghost predicate Later(e: Fabric, f: Fabric) {
    && (forall o <- e.catalog :: o in f.catalog && f.catalog[o].obj == e.catalog[o].obj)
    && (forall p <- e.placements :: p in f.placements && SameRecord(e.placements[p], f.placements[p]))
    && (forall m <- e.manifests :: m in f.manifests)
  }

  // ----- Every run leads to a later state -----

  lemma PublishManifests(f: Fabric, h: Hash, obj: Object, content: bytes, backend: Id, opts: Options, faults: Faults)
    requires (backend in f.stores ==> Registered(f, backend)) && obj.id in f.catalog
    ensures f.manifests.Keys <= Publish(f, h, obj, content, backend, opts, faults).1.manifests.Keys
  {
    hide Publish, Chunking, VerifyFrom, BuiltManifest, WithPlacement;
    PublishEffect(f, h, obj, content, backend, opts, faults);
  }

  lemma EvictManifests(f: Fabric, id: Id, faults: Faults)
    ensures Evict(f, id, faults).1.manifests == f.manifests
  {
    hide Evicted;
    if Evict(f, id, faults).0.Pass? {
      EvictedShape(f, id, faults);
    }
  }

  lemma StepManifests(f: Fabric, h: Hash, op: Op)
    requires Wired(f) && Allowed(f, op)
    ensures f.manifests.Keys <= Step(f, h, op).manifests.Keys
  {
    hide Wired, Publish, Replicate, Evict, RunnerText;
    match op
    case OpPublish(obj, content, backend, opts, faults) =>
      RegisteredTarget(f, backend);
      PublishManifests(f, h, obj, content, backend, opts, faults);
    case OpReplicate(source, target, opts, readFaults, faults) =>
      ReplicateManifests(f, h, source, target, opts, readFaults, faults);
    case OpMove(source, target, opts, readFaults, faults) =>
      ReplicateManifests(f, h, source, target, opts, readFaults, faults);
    case OpEvict(id, faults) => EvictManifests(f, id, faults);
    case _ =>
  }

  lemma ReplicateManifests(f: Fabric, h: Hash, source: Placement, target: Id, opts: Options, readFaults: Faults, faults: Faults)
    requires Wired(f)
    ensures f.manifests.Keys <= Replicate(f, h, source, target, opts, readFaults, faults).1.manifests.Keys
  {
    hide Replicate, Publish, ReadById, Wired;
    RegisteredTarget(f, target);
    var o, data := ReplicatePublishes(f, h, source, target, opts, readFaults, faults);
    var (r, g) := Replicate(f, h, source, target, opts, readFaults, faults);
    if !(r.Err? && g == f) {
      PublishManifests(f, h, f.catalog[source.obj].obj, data, target, o, faults);
    }
  }

  lemma {:induction false} RunManifests(f: Fabric, h: Hash, ops: seq<Op>)
    requires Steady(f, h) && AllowedRun(f, h, ops)
    ensures f.manifests.Keys <= Run(f, h, ops).manifests.Keys
    decreases |ops|
  {
    hide Safe, Wired, Allowed, Step, Preserves, SameObjects, Exact, Completed;
    if ops != [] {
      StepSteady(f, h, ops[0]);
      assert Wired(f);
      StepManifests(f, h, ops[0]);
      RunManifests(Step(f, h, ops[0]), h, ops[1..]);
    }
  }

  lemma RunLater(e: Fabric, h: Hash, ops: seq<Op>)
    requires Steady(e, h) && AllowedRun(e, h, ops)
    ensures Later(e, Run(e, h, ops))
  {
    hide Safe, Wired, Run, AllowedRun, SameRecord, SameBytes;
    RunPreserves(e, h, ops);
    RunManifests(e, h, ops);
  }

  // ----- Records that are there already stay as they are -----

  lemma {:induction false} ObjectsKnown(c: map<Id, Entry>, os: seq<Object>)
    requires forall o <- os :: o.id in c
    ensures WithObjects(c, os) == c
    decreases |os|
  {
    if os != [] {
      ObjectsKnown(c, Front(os));
      assert Last(os) in os;
    }
  }

  lemma {:induction false} ManifestsKnown(m: map<Id, Manifest>, ms: seq<Manifest>)
    requires forall x <- ms :: x.id in m
    ensures WithManifests(m, ms) == m
    decreases |ms|
  {
    if ms != [] {
      ManifestsKnown(m, Front(ms));
      assert Last(ms) in ms;
    }
  }

  lemma {:induction false} PlacementsKnown(m: map<Id, Placement>, ps: seq<Placement>)
    requires forall p <- ps :: p.id in m
    ensures WithPlacements(m, ps) == m
    decreases |ps|
  {
    if ps != [] {
      PlacementsKnown(m, Front(ps));
      assert Last(ps) in ps;
    }
  }

  /** The entries of d, with the replica sets of c where c has one. */
  ghost predicate Reset(c: map<Id, Entry>, d: map<Id, Entry>, g: map<Id, Entry>) {
    && g.Keys == d.Keys
    && forall o <- g :: g[o].obj == d[o].obj && g[o].replicaSet == if o in c then c[o].replicaSet else d[o].replicaSet
  }

  /** What recover makes of a running runtime: the records are those it has, and only replica sets and counts change. */
  lemma LiveParts(e: Fabric, f: Fabric, h: Hash, s: Snapshot, o: Orders, boot: Id, order: seq<Id>, g: Fabric)
    requires Safe(e, h) && Keyed(e.catalog) && Later(e, f) && SnapshotOf(e, s, o) && Recovered(f, s, boot, order, g)
    ensures g.placements == f.placements && g.manifests == f.manifests && g.stores == f.stores && g.ids == f.ids
    ensures Reset(e.catalog, f.catalog, g.catalog) && (Listing(f.catalog, f.placements) ==> Listing(g.catalog, g.placements))
    ensures Enumerates(order, f.manifests.Keys) && Raised(IndexAll(f.blobs, ChunksOf(f.manifests, order)), g.blobs)
    ensures g.tiers == f.tiers && f.descriptors.Keys <= g.descriptors.Keys
    ensures forall b <- f.descriptors :: b in g.descriptors && g.descriptors[b].tier == f.descriptors[b].tier
  {
    hide IndexAll, ChunksOf, Raised, WithObjects, WithSets, AttachedAll, WithManifests, WithPlacements, WithBackends, Keyed,
      Safe, SameRecord, Listing;
    SafeIds(e, h);
    SnapshotKnown(e, f, s, o);
    ObjectsKnown(f.catalog, s.objects);
    ManifestsKnown(f.manifests, s.manifests);
    PlacementsKnown(f.placements, s.placements);
    A.WithBackendsKeeps(f.descriptors, s.backends);
    LiveCatalog(e, f, s, o);
  }

  lemma SnapshotKnown(e: Fabric, f: Fabric, s: Snapshot, o: Orders)
    requires Later(e, f) && SnapshotOf(e, s, o) && Keyed(e.catalog)
    requires (forall m <- e.manifests :: e.manifests[m].id == m) && (forall p <- e.placements :: e.placements[p].id == p)
    ensures (forall x <- s.objects :: x.id in f.catalog) && (forall m <- s.manifests :: m.id in f.manifests)
    ensures forall p <- s.placements :: p.id in f.placements
  {
    hide SameRecord;
    forall x | x in s.objects
      ensures x.id in f.catalog
    {
      var i :| 0 <= i < |s.objects| && s.objects[i] == x;
      assert o.catalog[i] in o.catalog;
    }
    forall m | m in s.manifests
      ensures m.id in f.manifests
    {
      var i :| 0 <= i < |s.manifests| && s.manifests[i] == m;
      assert o.manifests[i] in o.manifests;
    }
    forall p | p in s.placements
      ensures p.id in f.placements
    {
      var i :| 0 <= i < |s.placements| && s.placements[i] == p;
      assert o.placements[i] in o.placements;
    }
  }

  /** The catalog gets the saved replica sets, and lists each saved placement once more. */
  lemma LiveCatalog(e: Fabric, f: Fabric, s: Snapshot, o: Orders)
    requires Later(e, f) && SnapshotOf(e, s, o) && Keyed(e.catalog) && forall p <- e.placements :: e.placements[p].id == p
    ensures var g := AttachedAll(WithSets(f.catalog, s.replicaSets), s.placements);
      Reset(e.catalog, f.catalog, g) && (Listing(f.catalog, f.placements) ==> Listing(g, f.placements))
  {
    hide WithSets, AttachedAll, Keyed, Holds, Values, SameRecord, Listing;
    SetsBack(e.catalog, f.catalog, o.catalog, e.catalog.Keys, s.replicaSets);
    var c := WithSets(f.catalog, s.replicaSets);
    AttachedBack(c, s.placements);
    forall obj, id | Holds(s.placements, id, obj)
      ensures id in f.placements && f.placements[id].obj == obj
    {
      SavedPlacement(e, f, s, o, obj, id);
    }
    if Listing(f.catalog, f.placements) {
      ListingAgain(f.catalog, c, AttachedAll(c, s.placements), f.placements, s.placements);
    }
  }

  lemma SavedPlacement(e: Fabric, f: Fabric, s: Snapshot, orders: Orders, o: Id, id: Id)
    requires Later(e, f) && SnapshotOf(e, s, orders) && forall p <- e.placements :: e.placements[p].id == p
    requires Holds(s.placements, id, o)
    ensures id in f.placements && f.placements[id].obj == o
  {
    hide Holds, Values;
    ValuesMember(e.placements, orders.placements, id, o);
  }

  lemma ListingAgain(c: map<Id, Entry>, d: map<Id, Entry>, w: map<Id, Entry>, ps: map<Id, Placement>, vs: seq<Placement>)
    requires Listing(c, ps) && c.Keys == d.Keys == w.Keys && forall o <- c :: d[o].placements == c[o].placements
    requires forall o, id :: o in w ==> (id in w[o].placements <==> id in d[o].placements || Holds(vs, id, o))
    requires forall o, id :: Holds(vs, id, o) ==> id in ps && ps[id].obj == o
    ensures Listing(w, ps)
  {
    hide Holds;
  }

  // ----- What survives -----

  /** A running runtime survives recovering from its own earlier file: blob safety holds, every placement reads the same.
      But each manifest is counted once more, so the counts stay exact only when there is nothing to count. */
  lemma LiveContinues(e: Fabric, f: Fabric, h: Hash, s: Snapshot, o: Orders, boot: Id, order: seq<Id>, g: Fabric)
    requires Steady(e, h) && Steady(f, h) && Later(e, f) && SnapshotOf(e, s, o) && Recovered(f, s, boot, order, g)
    ensures Continues(f, g, h)
    ensures Exact(g) <==> Exact(f) && forall m <- f.manifests :: f.manifests[m].chunks == []
  {
    hide Parts, Recovered, SnapshotOf, Later, Raised, IndexAll, ChunksOf, Indexed, Recorded, Uses, Refs, Occurrences, Sum,
      Enumerates, Preserves, Reset, Listing;
    LiveParts(e, f, h, s, o, boot, order, g);
    IndexBack(f, h, f.blobs, order, g.blobs);
    SafeIndexed(f, h);
    LiveSafe(f, g, h);
    LiveWired(e, f, g);
    Unchanged(f, h);
    SamePreserves(f, g);
    LiveExact(f, g, h);
  }

  /** Save, run on, recover in the same process, run on: what the saved state had placed reads the same until it is
      evicted. */
  lemma LiveThenRun(e: Fabric, h: Hash, before: seq<Op>, s: Snapshot, o: Orders, boot: Id, order: seq<Id>, g: Fabric,
                    after: seq<Op>)
    requires Steady(e, h) && AllowedRun(e, h, before) && SnapshotOf(e, s, o)
    requires Recovered(Run(e, h, before), s, boot, order, g) && (Steady(g, h) ==> AllowedRun(g, h, after))
    ensures Continues(e, g, h) && Continues(e, Run(g, h, after), h)
  {
    hide Steady, Recovered, SnapshotOf, Run, AllowedRun, Preserves, SameObjects, Exact, Later;
    var f := Run(e, h, before);
    RunPreserves(e, h, before);
    RunLater(e, h, before);
    LiveContinues(e, f, h, s, o, boot, order, g);
    A.ContinuesTransitive(e, f, g, h);
    RunPreserves(g, h, after);
    A.ContinuesTransitive(e, g, Run(g, h, after), h);
  }

  lemma LiveSafe(f: Fabric, g: Fabric, h: Hash)
    requires Safe(f, h) && g.placements == f.placements && g.manifests == f.manifests && g.stores == f.stores
    requires Indexed(g.blobs) && forall m <- f.manifests :: Recorded(g.blobs, f.manifests[m])
    requires forall blob :: Refs(g.blobs, blob) >= Refs(f.blobs, blob)
    ensures Safe(g, h)
  {
    hide Uses, Refs, Indexed, Recorded, Backed;
  }

  lemma SamePreserves(f: Fabric, g: Fabric)
    requires Preserves(f, f) && g.placements == f.placements && g.manifests == f.manifests && g.stores == f.stores
    ensures Preserves(f, g)
  {
    hide SameRecord, SameBlobs;
    forall p | p in f.placements && Live(f.placements[p])
      ensures SameBytes(f, g, f.placements[p])
    {
      assert SameBytes(f, f, f.placements[p]);
    }
  }

  lemma LiveWired(e: Fabric, f: Fabric, g: Fabric)
    requires Wired(e) && Wired(f) && Reset(e.catalog, f.catalog, g.catalog) && g.stores == f.stores && g.tiers == f.tiers
    requires forall b <- f.descriptors :: b in g.descriptors && g.descriptors[b].tier == f.descriptors[b].tier
    ensures Wired(g) && SameObjects(f, g)
  {
    forall b | b in g.stores
      ensures Registered(g, b)
    {
      assert Registered(f, b);
    }
  }

  lemma LiveExact(f: Fabric, g: Fabric, h: Hash)
    requires Safe(f, h) && g.placements == f.placements && g.manifests == f.manifests
    requires forall blob :: Refs(g.blobs, blob) == Refs(f.blobs, blob) + Sum(Occurrences(f.manifests, f.manifests.Keys, blob))
    ensures Exact(g) <==> Exact(f) && forall m <- f.manifests :: f.manifests[m].chunks == []
  {
    hide Uses, Refs, Sum, Occurrences, Parts;
    SafeIndexed(f, h);
    if m :| m in f.manifests && f.manifests[m].chunks != [] {
      SomeOccurrence(f.manifests, m);
    } else {
      forall blob
        ensures Sum(Occurrences(f.manifests, f.manifests.Keys, blob)) == 0
      {
        NoOccurrence(f.manifests, blob);
      }
    }
  }

  lemma SomeOccurrence(ms: map<Id, Manifest>, m: Id)
    requires m in ms && ms[m].chunks != []
    ensures Sum(Occurrences(ms, ms.Keys, ms[m].chunks[0].blob)) > 0
  {
    hide Sum, Count;
    var c := ms[m].chunks[0];
    CountPositive(ms[m].chunks, c);
    SumTerm(Occurrences(ms, ms.Keys, c.blob), m);
  }

  lemma NoOccurrence(ms: map<Id, Manifest>, blob: Id)
    requires forall m <- ms :: ms[m].chunks == []
    ensures Sum(Occurrences(ms, ms.Keys, blob)) == 0
  {
    hide Sum;
    SumOfZeros(Occurrences(ms, ms.Keys, blob));
  }

  // ----- When the replica sets do not -----

  lemma ReplicaOf(f: Fabric, o: Id, p: Id)
    requires Durable(f) && o in f.catalog
    ensures p in LivePlacements(f.placements, o) <==> exists r :: r in f.catalog[o].replicaSet.replicas && r.id == p
  {
    var rs := f.catalog[o].replicaSet.replicas;
    assert Listed(rs, f.placements, o);
    if p in LivePlacements(f.placements, o) {
      assert HasReplica(rs, f.placements[p]);
      var r :| r in rs && Of(r, f.placements[p]);
    }
    if r :| r in rs && r.id == p {
      assert HasPlacement(f.placements, o, r);
      var q :| q in LivePlacements(f.placements, o) && Of(r, f.placements[q]);
    }
  }

  /** A list that fits both states shows that the same placements are live. */
  lemma SameLive(e: Fabric, g: Fabric, o: Id)
    requires Durable(e) && Durable(g) && o in e.catalog && o in g.catalog
    requires g.catalog[o].replicaSet == e.catalog[o].replicaSet
    ensures LivePlacements(e.placements, o) == LivePlacements(g.placements, o)
  {
    hide Durable;
    forall p
      ensures p in LivePlacements(e.placements, o) <==> p in LivePlacements(g.placements, o)
    {
      ReplicaOf(e, o, p);
      ReplicaOf(g, o, p);
    }
  }

  lemma ListedLater(rs: seq<Replica>, ps: map<Id, Placement>, qs: map<Id, Placement>, o: Id)
    requires Listed(rs, ps, o) && LivePlacements(ps, o) == LivePlacements(qs, o)
    requires forall p <- ps :: p in qs && SameRecord(ps[p], qs[p])
    ensures Listed(rs, qs, o)
  {
    hide DistinctReplicas, HasReplica, HasPlacement;
    forall p | p in LivePlacements(qs, o)
      ensures HasReplica(rs, qs[p])
    {
      RecordReplica(rs, ps[p], qs[p]);
    }
    forall r | r in rs
      ensures HasPlacement(qs, o, r)
    {
      HasPlacementKept(ps, qs, o, r);
    }
  }

  lemma RecordReplica(rs: seq<Replica>, p: Placement, q: Placement)
    requires SameRecord(p, q) && HasReplica(rs, p)
    ensures HasReplica(rs, q)
  {
    var r :| r in rs && Of(r, p);
    assert Of(r, q);
  }

  /** The saved replica set of an object is up to date: the same placements are live, and it had its first placement then
      if it has had one now. */
  ghost predicate UpToDate(e: Fabric, f: Fabric, o: Id)
    requires o in e.catalog && o in f.catalog
  {
    && LivePlacements(e.placements, o) == LivePlacements(f.placements, o)
    && (e.catalog[o].placements == [] ==> f.catalog[o].placements == [])
  }

  lemma ResetCached(e: Fabric, f: Fabric, g: Fabric, o: Id)
    requires Durable(e) && Durable(f) && Later(e, f) && o in e.catalog && o in f.catalog && o in g.catalog
    requires Listing(g.catalog, g.placements) && g.placements == f.placements
    requires g.catalog[o].obj == f.catalog[o].obj && g.catalog[o].replicaSet == e.catalog[o].replicaSet
    requires LivePlacements(e.placements, o) == LivePlacements(f.placements, o)
    ensures Cached(g.catalog[o]) <==> (e.catalog[o].placements == [] ==> f.catalog[o].placements == [])
  {
    hide Listed, DomainsOf, SameRecord, Keyed;
    assert Cached(e.catalog[o]);
    SameListing(f.catalog, g.catalog, f.placements, o);
    if e.catalog[o].placements == [] {
      NoReplicas(e, o);
    } else {
      var p := e.catalog[o].placements[0];
      assert p in e.catalog[o].placements;
      RecordListed(e, f, o, p);
    }
  }

  lemma RecordListed(e: Fabric, f: Fabric, o: Id, p: Id)
    requires Paired(e) && Paired(f) && Later(e, f) && o in e.catalog && o in f.catalog && p in e.catalog[o].placements
    ensures p in f.catalog[o].placements
  {
    assert SameRecord(e.placements[p], f.placements[p]);
  }

  lemma SameListing(c: map<Id, Entry>, d: map<Id, Entry>, ps: map<Id, Placement>, o: Id)
    requires Listing(c, ps) && Listing(d, ps) && o in c && o in d
    ensures c[o].placements == [] <==> d[o].placements == []
  {
    assert forall p :: p in c[o].placements <==> p in ps && ps[p].obj == o;
    assert forall p :: p in d[o].placements <==> p in ps && ps[p].obj == o;
    if c[o].placements != [] {
      assert c[o].placements[0] in d[o].placements;
    }
    if d[o].placements != [] {
      assert d[o].placements[0] in c[o].placements;
    }
  }

  lemma NoReplicas(e: Fabric, o: Id)
    requires Durable(e) && o in e.catalog && e.catalog[o].placements == []
    ensures e.catalog[o].replicaSet.replicas == [] && LivePlacements(e.placements, o) == {}
    ensures DomainsOf([]) == {}
  {
    var rs := e.catalog[o].replicaSet.replicas;
    assert Listed(rs, e.placements, o);
    forall p | p in e.placements
      ensures e.placements[p].obj != o
    {
      assert p !in e.catalog[o].placements;
    }
    assert LivePlacements(e.placements, o) == {};
  }

  /** The replica sets are in step with the placements after recovering from an earlier file exactly when that file was up
      to date about every object it names. */
  lemma LiveDurableIff(e: Fabric, f: Fabric, h: Hash, s: Snapshot, o: Orders, boot: Id, order: seq<Id>, g: Fabric)
    requires Safe(e, h) && Durable(e) && Durable(f) && Later(e, f) && SnapshotOf(e, s, o) && Recovered(f, s, boot, order, g)
    ensures Durable(g) <==> forall c <- e.catalog :: c in f.catalog && UpToDate(e, f, c)
  {
    hide Safe, SnapshotOf, Recovered, Enumerates, Raised, IndexAll, ChunksOf, Listed, Cached, Listing, Paired, Later,
      LivePlacements, UpToDate, Keyed;
    DurableParts(e);
    DurableParts(f);
    LiveParts(e, f, h, s, o, boot, order, g);
    LaterCatalog(e, f);
    LivePaired(e, f, g);
    forall c | c in g.catalog
      ensures Cached(g.catalog[c]) && Listed(g.catalog[c].replicaSet.replicas, g.placements, c) <==
        (c in e.catalog ==> UpToDate(e, f, c))
      ensures Durable(g) && c in e.catalog ==> UpToDate(e, f, c)
    {
      if c in e.catalog {
        LiveEntryIff(e, f, g, c);
      } else {
        KeptEntry(f, g, c);
      }
    }
  }

  lemma DurableParts(f: Fabric)
    requires Durable(f)
    ensures Paired(f) && Keyed(f.catalog) && Listing(f.catalog, f.placements)
  {
    hide Listed, Cached, Listing, Keyed;
  }

  lemma LaterCatalog(e: Fabric, f: Fabric)
    requires Later(e, f)
    ensures e.catalog.Keys <= f.catalog.Keys
  {}

  lemma LivePaired(e: Fabric, f: Fabric, g: Fabric)
    requires Paired(f) && Keyed(e.catalog) && Reset(e.catalog, f.catalog, g.catalog) && g.ids == f.ids
    requires g.placements == f.placements && Listing(g.catalog, g.placements)
    ensures Paired(g)
  {
    hide Listing;
  }

  lemma LiveEntryIff(e: Fabric, f: Fabric, g: Fabric, c: Id)
    requires Durable(e) && Durable(f) && Later(e, f) && c in e.catalog && c in f.catalog && c in g.catalog
    requires Listing(g.catalog, g.placements) && g.placements == f.placements
    requires g.catalog[c].obj == f.catalog[c].obj && g.catalog[c].replicaSet == e.catalog[c].replicaSet
    ensures UpToDate(e, f, c) ==> Cached(g.catalog[c]) && Listed(g.catalog[c].replicaSet.replicas, g.placements, c)
    ensures Durable(g) ==> UpToDate(e, f, c)
  {
    hide Listed, Cached, Listing, Paired, SameRecord, LivePlacements;
    if LivePlacements(e.placements, c) == LivePlacements(f.placements, c) {
      ResetCached(e, f, g, c);
      ListedLater(e.catalog[c].replicaSet.replicas, e.placements, f.placements, c);
    }
    if Durable(g) {
      SameLive(e, g, c);
    }
  }

  lemma KeptEntry(f: Fabric, g: Fabric, c: Id)
    requires Durable(f) && c in f.catalog && c in g.catalog && g.placements == f.placements
    requires Listing(g.catalog, g.placements) && g.catalog[c].obj == f.catalog[c].obj
    requires g.catalog[c].replicaSet == f.catalog[c].replicaSet
    ensures Cached(g.catalog[c]) && Listed(g.catalog[c].replicaSet.replicas, g.placements, c)
  {
    hide Listed, DomainsOf, ComputeState, Listing;
    assert Cached(f.catalog[c]);
    SameListing(f.catalog, g.catalog, f.placements, c);
  }
}
