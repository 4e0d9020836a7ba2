/** Life after recover: which guarantees continue, and exactly which operations the counters and accounts that are
    not restored stand in the way of. */
module AfterRecovery {
  import opened Bytes
  import opened Status
  import opened Model
  import opened AuthorityOrder
  import opened BlobStore
  import opened Sums
  import opened Runtime
  import opened Effects
  import opened Safety
  import opened Conservation
  import opened Durability
  import opened ReadBack
  import opened Admission
  import opened Runs
  import opened Recovery
  import L = Ledger

  /** A new process: its backends are registered, nothing is in use, and they may hold bytes. */
  ghost predicate Started(f: Fabric) {
    && Blank(f) && Wired(f) && L.Balanced(f.ledger) && f.ledger.backends.Keys == f.stores.Keys
    && (forall b <- f.ledger.backends :: f.ledger.backends[b].reserved == 0 && f.ledger.backends[b].committed == 0)
  }

  /** g is what recover makes, in a new process over the same backend contents, of a snapshot of f. */
  ghost predicate Restarted(f: Fabric, g: Fabric, blank: Fabric, s: Snapshot, o: Orders, boot: Id, order: seq<Id>) {
    Started(blank) && blank.stores == f.stores && SnapshotOf(f, s, o) && Recovered(blank, s, boot, order, g)
  }

  lemma WiredKeyed(f: Fabric)
    requires Wired(f)
    ensures Keyed(f.catalog)
  {}

  lemma {:induction false} WithBackendsKeeps(m: map<Id, Backend>, bs: seq<Backend>)
    ensures forall b <- m :: b in WithBackends(m, bs) && WithBackends(m, bs)[b] == m[b]
    decreases |bs|
  {
    if bs != [] {
      WithBackendsKeeps(m, Front(bs));
    }
  }

  /** Everything recover leaves in place, and what it brings back. */
  lemma RestartedParts(f: Fabric, g: Fabric, h: Hash, blank: Fabric, s: Snapshot, o: Orders, boot: Id, order: seq<Id>)
    requires Steady(f, h) && Restarted(f, g, blank, s, o, boot, order)
    ensures g.placements == f.placements && g.manifests == f.manifests && g.stores == f.stores
    ensures SameCatalog(f.catalog, g.catalog, f.placements)
    ensures g.ledger == blank.ledger && g.ids == Counters(1, 1, 1, 1)
    ensures forall b <- g.stores :: Registered(g, b)
  {
    hide Wired, Values, IndexAll, ChunksOf, Raised, WithObjects, WithSets, AttachedAll, WithManifests, WithPlacements,
      WithBackends, SameCatalog, Parts, Keyed, L.Balanced;
    WiredKeyed(f);
    SafeIds(f, h);
    RecordsBack(f, s, o, blank, boot, order, g);
    WithBackendsKeeps(blank.descriptors, s.backends);
    forall b | b in g.stores
      ensures Registered(g, b)
    {
      RegisteredTarget(blank, b);
    }
  }

  lemma SameCatalogWired(f: Fabric, g: Fabric)
    requires Wired(f) && SameCatalog(f.catalog, g.catalog, f.placements) && forall b <- g.stores :: Registered(g, b)
    ensures Wired(g)
  {}

  /** recover puts the runtime back where every operation keeps blob safety, and loses no byte still placed. */
  lemma RestartContinues(f: Fabric, g: Fabric, h: Hash, blank: Fabric, s: Snapshot, o: Orders, boot: Id, order: seq<Id>)
    requires Steady(f, h) && Restarted(f, g, blank, s, o, boot, order)
    ensures Continues(f, g, h)
    ensures Exact(g) <==> forall m <- f.manifests :: f.manifests[m].chunks != [] ==> InUse(f, m)
  {
    hide Wired, Safe, Keyed, SnapshotOf, Recovered, Blank, SameCatalog, Exact, InUse, Preserves, SameObjects, L.Balanced;
    WiredKeyed(f);
    RestartedParts(f, g, h, blank, s, o, boot, order);
    SameCatalogWired(f, g);
    RecoverSafe(f, h, s, o, blank, boot, order, g);
    RecoverExact(f, h, s, o, blank, boot, order, g);
  }

  /** Run, save, recover, run on, as often as one likes: what recover continues, later operations continue, and each
      placement reads the same until it is evicted. */
  lemma RestartThenRun(f: Fabric, g: Fabric, h: Hash, blank: Fabric, s: Snapshot, o: Orders, boot: Id, order: seq<Id>,
                       ops: seq<Op>)
    requires Steady(f, h) && Restarted(f, g, blank, s, o, boot, order) && (Steady(g, h) ==> AllowedRun(g, h, ops))
    ensures Steady(g, h)
    ensures Continues(f, Run(g, h, ops), h)
    ensures var end := Run(g, h, ops);
      forall id, faults :: id in f.placements && id in end.placements && Live(end.placements[id]) ==>
        ReadById(end, id, faults) == ReadById(f, id, faults)
  {
    hide Safe, Wired, Restarted, Run, AllowedRun, Exact, InUse, Preserves, SameObjects, ReadById;
    RestartContinues(f, g, h, blank, s, o, boot, order);
    RunPreserves(g, h, ops);
    var end := Run(g, h, ops);
    PreservesTransitive(f, g, end);
    SameObjectsTransitive(f, g, end);
    forall id, faults | id in f.placements && id in end.placements && Live(end.placements[id])
      ensures ReadById(end, id, faults) == ReadById(f, id, faults)
    {
      SameRead(f, end, id, faults);
    }
  }

  lemma SameCached(c: map<Id, Entry>, d: map<Id, Entry>, ps: map<Id, Placement>, o: Id)
    requires SameCatalog(c, d, ps) && o in c && Cached(c[o])
    requires Listing(c, ps)
    ensures Cached(d[o]) && (d[o].placements == [] <==> c[o].placements == [])
  {
    assert o in d;
    assert forall p :: p in d[o].placements <==> p in ps && ps[p].obj == o;
    assert forall p :: p in c[o].placements <==> p in ps && ps[p].obj == o;
    if d[o].placements != [] {
      assert d[o].placements[0] in c[o].placements;
    }
    if c[o].placements != [] {
      assert c[o].placements[0] in d[o].placements;
    }
  }

  /** The counters that start over do not matter to the replica sets: they come back in step with the placements, and
      no published object is lost. */
  lemma RestartDurable(f: Fabric, g: Fabric, h: Hash, blank: Fabric, s: Snapshot, o: Orders, boot: Id, order: seq<Id>)
    requires Steady(f, h) && Durable(f) && Restarted(f, g, blank, s, o, boot, order)
    ensures Durable(g) && (NeverLost(f) ==> NeverLost(g))
  {
    hide Safe, Wired, Started, SnapshotOf, Recovered, Listed, Cached, Listing, AvailablePlacements, Registered;
    RestartedParts(f, g, h, blank, s, o, boot, order);
    forall c | c in g.catalog
      ensures Cached(g.catalog[c]) && Listed(g.catalog[c].replicaSet.replicas, g.placements, c)
      ensures g.catalog[c].placements != [] ==> f.catalog[c].placements != []
    {
      SameCached(f.catalog, g.catalog, f.placements, c);
    }
  }

  // ----- Any number of lives -----

  /** A process runs some operations and saves; the next one, over the same backend contents, recovers and starts as
      next. */
  datatype Life = Life(ops: seq<Op>, snapshot: Snapshot, orders: Orders, blank: Fabric, boot: Id, order: seq<Id>, next: Fabric)

  /** From f, one life after the other leads to end. */
  ghost predicate Lived(f: Fabric, h: Hash, lives: seq<Life>, end: Fabric)
    requires Steady(f, h)
    decreases |lives|
  {
    if lives == [] then end == f
    else
      var l := lives[0];
      AllowedRun(f, h, l.ops) &&
      (RunPreserves(f, h, l.ops);
       Restarted(Run(f, h, l.ops), l.next, l.blank, l.snapshot, l.orders, l.boot, l.order) &&
       (RestartContinues(Run(f, h, l.ops), l.next, h, l.blank, l.snapshot, l.orders, l.boot, l.order);
        Lived(l.next, h, lives[1..], end)))
  }

  ghost predicate MoveFree(lives: seq<Life>) {
    forall l <- lives :: forall op <- l.ops :: !op.OpMove?
  }

  /** Through any number of lives blob safety and every byte still placed are kept, replica sets stay in step, and without
      moves no published object loses its last AVAILABLE placement. */
  lemma {:induction false} LivesContinue(f: Fabric, h: Hash, lives: seq<Life>, end: Fabric)
    requires Steady(f, h) && Lived(f, h, lives, end)
    ensures Continues(f, end, h)
    ensures Durable(f) ==> Durable(end) && (NeverLost(f) && MoveFree(lives) ==> NeverLost(end))
    decreases |lives|
  {
    hide Safe, Wired, Restarted, Run, AllowedRun, Exact, InUse, Preserves, SameObjects, Durable, NeverLost;
    if lives == [] {
      Unchanged(f, h);
    } else {
      var l := lives[0];
      var mid := Run(f, h, l.ops);
      RunPreserves(f, h, l.ops);
      RestartContinues(mid, l.next, h, l.blank, l.snapshot, l.orders, l.boot, l.order);
      LivesContinue(l.next, h, lives[1..], end);
      ContinuesTransitive(f, mid, l.next, h);
      ContinuesTransitive(f, l.next, end, h);
      if Durable(f) {
        assert MoveFree(lives) ==> MoveFree(lives[1..]) && l in lives;
        RunNeverLost(f, h, l.ops);
        RestartDurable(mid, l.next, h, l.blank, l.snapshot, l.orders, l.boot, l.order);
      }
    }
  }

  lemma ContinuesTransitive(f: Fabric, g: Fabric, k: Fabric, h: Hash)
    requires Continues(f, g, h) && Continues(g, k, h)
    ensures Continues(f, k, h)
  {
    hide Steady, Preserves, SameObjects;
    PreservesTransitive(f, g, k);
    SameObjectsTransitive(f, g, k);
  }

  // ----- What is not restored -----

  /** The publication finds its backend wired and succeeds. */
  ghost predicate GoesThrough(f: Fabric, h: Hash, obj: Object, content: bytes, backend: Id, opts: Options) {
    (backend in f.stores ==> Registered(f, backend)) && Publish(f, h, obj, content, backend, opts, NO_FAULTS).0.Ok?
  }

  /** In the recovered runtime a publication meets its usual conditions and one more: the counters start at one
      again, so no manifest and no placement may carry that id. */
  lemma RestartedPublishIff(f: Fabric, g: Fabric, h: Hash, blank: Fabric, s: Snapshot, o: Orders, boot: Id, order: seq<Id>,
                            obj: Object, content: bytes, backend: Id, opts: Options)
    requires Sound(f, h) && Restarted(f, g, blank, s, o, boot, order) && obj.id in f.catalog
    ensures GoesThrough(g, h, obj, content, backend, opts) <==>
      Admissible(g, h, obj, content, backend, opts) && 1 !in f.manifests && 1 !in f.placements
  {
    hide Publish, Admissible, Safe, Wired, Durable, Conserved, SnapshotOf, Recovered, Blank, Registered, Preserves, SameObjects,
      Exact, InUse, Indexed, Uses, Refs, L.Balanced;
    RestartContinues(f, g, h, blank, s, o, boot, order);
    RestartedParts(f, g, h, blank, s, o, boot, order);
    SafeIndexed(g, h);
    AheadCounters(f);
    SucceedsIff(g, h, obj, content, backend, opts);
  }

  /** define_object meets an id that is taken exactly when object one was recovered. */
  lemma RestartedDefineIff(f: Fabric, g: Fabric, h: Hash, blank: Fabric, s: Snapshot, o: Orders, boot: Id, order: seq<Id>,
                           kind: Enum, size: nat, content: bytes, writer: Authority, minReplicas: nat, priority: Enum)
    requires Steady(f, h) && Restarted(f, g, blank, s, o, boot, order) && |content| == size > 0 && size < TWO_64
    ensures var r := DefineObject(g, h, kind, size, content, writer, minReplicas, priority).0;
      if 1 in f.catalog then r == Err(DuplicateIdentity) else r.Ok?
  {
    hide RunnerText, Restarted, Safe, Wired, Registered;
    RestartedParts(f, g, h, blank, s, o, boot, order);
  }

  /** The ledger is not restored: the accounts agree with the placements exactly when every placement that comes back
      had been evicted. */
  lemma RestartedConservedIff(f: Fabric, g: Fabric, h: Hash, blank: Fabric, s: Snapshot, o: Orders, boot: Id, order: seq<Id>)
    requires Sound(f, h) && Restarted(f, g, blank, s, o, boot, order)
    ensures Conserved(g) <==> forall p <- f.placements :: !Live(f.placements[p])
  {
    hide Safe, Wired, Recovered, SnapshotOf, Blank, L.Balanced, Occupied, Listed, Cached, Registered;
    RestartedParts(f, g, h, blank, s, o, boot, order);
    if p :| p in f.placements && Live(f.placements[p]) {
      OccupiedTerm(f.placements, p, f.placements[p].backend);
    } else {
      forall b
        ensures Occupied(f.placements, b) == 0
      {
        NoneLive(f.placements, b);
      }
    }
  }

  lemma NoneLive(ps: map<Id, Placement>, b: Id)
    requires forall p <- ps :: !Live(ps[p])
    ensures Occupied(ps, b) == 0
  {
    hide Sum;
    SumOfZeros(SizeTerms(ps, b));
  }

  // ----- There is always something to recover -----

  lemma EnumerationExists(keys: set<Id>)
    ensures exists order :: Enumerates(order, keys)
    decreases |keys|
  {
    if keys == {} {
      assert Enumerates([], keys);
    } else {
      var k :| k in keys;
      EnumerationExists(keys - {k});
      var order :| Enumerates(order, keys - {k});
      assert Enumerates(order + [k], keys);
    }
  }

  lemma SnapshotExists(f: Fabric) returns (s: Snapshot, o: Orders)
    ensures SnapshotOf(f, s, o)
  {
    EnumerationExists(f.catalog.Keys);
    var catalog :| Enumerates(catalog, f.catalog.Keys);
    EnumerationExists(f.manifests.Keys);
    var manifests :| Enumerates(manifests, f.manifests.Keys);
    EnumerationExists(f.placements.Keys);
    var placements :| Enumerates(placements, f.placements.Keys);
    EnumerationExists(f.descriptors.Keys);
    var backends :| Enumerates(backends, f.descriptors.Keys);
    o := Orders(catalog, manifests, placements, backends);
    s := Snapshot(f.authority.epoch, f.authority, f.policyGeneration, 0, [],
                  seq(|catalog|, i requires 0 <= i < |catalog| => f.catalog[catalog[i]].obj),
                  Values(f.manifests, manifests), Values(f.placements, placements),
                  seq(|catalog|, i requires 0 <= i < |catalog| => f.catalog[catalog[i]].replicaSet),
                  Values(f.descriptors, backends), [], []);
  }

  lemma RaisedExists(b: Blobs) returns (c: Blobs)
    ensures Raised(b, c)
  {
    var next := b.next;
    var left := b.refs.Keys;
    while left != {}
      invariant left <= b.refs.Keys && b.next <= next && (next == b.next || (next > 0 && next - 1 in b.refs))
      invariant forall id :: id in b.refs && id !in left ==> id < next
      decreases |left|
    {
      var id :| id in left;
      left := left - {id};
      if id >= next {
        next := id + 1;
      }
    }
    c := b.(next := next);
  }

  lemma RecoveredExists(f: Fabric, s: Snapshot, boot: Id) returns (order: seq<Id>, g: Fabric)
    ensures Recovered(f, s, boot, order, g)
  {
    hide Raised, WithObjects, WithSets, AttachedAll, WithManifests, WithPlacements, WithBackends;
    var manifests := WithManifests(f.manifests, s.manifests);
    EnumerationExists(manifests.Keys);
    order :| Enumerates(order, manifests.Keys);
    var blobs := RaisedExists(IndexAll(f.blobs, ChunksOf(manifests, order)));
    g := f.(catalog := AttachedAll(WithSets(WithObjects(f.catalog, s.objects), s.replicaSets), s.placements),
            manifests := manifests, placements := WithPlacements(f.placements, s.placements),
            descriptors := Revalidate(WithBackends(f.descriptors, s.backends), f.stores.Keys),
            blobs := blobs, authority := FreshAuthority(s.epoch, boot));
  }
}
