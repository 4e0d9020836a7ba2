/** The durability floor: replica sets against placements, and what an eviction leaves behind. */
module Durability {
  import opened Bytes
  import opened Status
  import opened Model
  import opened BlobStore
  import opened Runtime
  import opened Effects
  import L = Ledger

  ghost function LivePlacements(ps: map<Id, Placement>, o: Id): set<Id> {
    set p | p in ps && ps[p].obj == o && Live(ps[p])
  }

  ghost function AvailablePlacements(ps: map<Id, Placement>, o: Id): set<Id> {
    set p | p in ps && ps[p].obj == o && ps[p].lifecycle == AVAILABLE
  }

  ghost predicate DistinctReplicas(rs: seq<Replica>) {
    forall i, j :: 0 <= i < j < |rs| ==> rs[i].id != rs[j].id
  }

  /** r is the replica of placement p. */
  predicate Of(r: Replica, p: Placement) {
    r.id == p.replica && r.generation == p.replicaGeneration && r.backend == p.backend
    && r.logicalSize == p.logicalSize && r.physicalSize == p.physicalSize && r.authoritative
  }

  ghost predicate HasReplica(rs: seq<Replica>, p: Placement) {
    exists r :: r in rs && Of(r, p)
  }

  ghost predicate HasPlacement(ps: map<Id, Placement>, o: Id, r: Replica) {
    exists p :: p in LivePlacements(ps, o) && Of(r, ps[p])
  }

  /** One replica for each placement of the object that was not evicted, and no other. */
  ghost predicate Listed(rs: seq<Replica>, ps: map<Id, Placement>, o: Id) {
    && DistinctReplicas(rs)
    && |rs| == |LivePlacements(ps, o)|
    && (forall p <- LivePlacements(ps, o) :: HasReplica(rs, ps[p]))
    && (forall r <- rs :: HasPlacement(ps, o, r))
  }

  /** The cached counts agree with the list, and the state with the counts from the first placement on. */
  ghost predicate Cached(e: Entry) {
    var rs := e.replicaSet;
    && rs.required >= 1
    && rs.actual == rs.authoritative == |rs.replicas| && rs.distinctDomains == |DomainsOf(rs.replicas)|
    && rs.state == if e.placements == [] then UNDER_REPLICATED else ComputeState(rs.authoritative, rs.distinctDomains, rs.required)
  }

  /** A placement and its replica are numbered together, and the catalog has their object. */
  ghost predicate Paired(f: Fabric) {
    && f.ids.replica == f.ids.placement && Keyed(f.catalog)
    && (forall p <- f.placements :: f.placements[p].replica == p && f.placements[p].physicalSize > 0)
    && (forall p <- f.placements :: f.placements[p].obj in f.catalog)
    && Listing(f.catalog, f.placements)
  }

  ghost predicate Durable(f: Fabric) {
    && Paired(f)
    && (forall o <- f.catalog :: Cached(f.catalog[o]) && Listed(f.catalog[o].replicaSet.replicas, f.placements, o))
  }

  // ----- publish_to -----

  lemma LiveOfAdded(ps: map<Id, Placement>, id: Id, p: Placement, o: Id)
    requires id !in ps && Live(p)
    ensures LivePlacements(ps[id := p], o) == LivePlacements(ps, o) + (if p.obj == o then {id} else {})
    ensures |LivePlacements(ps[id := p], o)| == |LivePlacements(ps, o)| + if p.obj == o then 1 else 0
  {
    assert LivePlacements(ps[id := p], o) == LivePlacements(ps, o) + (if p.obj == o then {id} else {});
  }

  /** A fresh replica is appended. */
  lemma AppendedEntry(f: Fabric, e: Entry, p: Placement)
    requires Placeable(f, p) && Cached(e) && (forall r <- e.replicaSet.replicas :: r.id != p.replica)
    ensures Cached(WithPlacement(f, e, p))
    ensures WithPlacement(f, e, p).replicaSet.replicas == e.replicaSet.replicas + [NewReplica(f, p)]
    ensures WithPlacement(f, e, p).placements == e.placements + [p.id] && WithPlacement(f, e, p).obj == e.obj
    ensures WithPlacement(f, e, p).replicaSet.required == Max(e.replicaSet.required, p.durabilityReplicas)
  {}

  /** A change elsewhere, or one that leaves the placement live under its replica, keeps r's placement. */
  lemma HasPlacementKept(ps: map<Id, Placement>, qs: map<Id, Placement>, o: Id, r: Replica)
    requires HasPlacement(ps, o, r)
    requires forall p <- LivePlacements(ps, o) :: Of(r, ps[p]) ==> p in LivePlacements(qs, o) && Of(r, qs[p])
    ensures HasPlacement(qs, o, r)
  {
    var p :| p in LivePlacements(ps, o) && Of(r, ps[p]);
    assert p in LivePlacements(qs, o) && Of(r, qs[p]);
  }

  lemma HasReplicaGrows(rs: seq<Replica>, r: Replica, p: Placement)
    ensures HasReplica(rs, p) || Of(r, p) ==> HasReplica(rs + [r], p)
  {
    if HasReplica(rs, p) {
      var x :| x in rs && Of(x, p);
      assert x in rs + [r];
    }
    assert r in rs + [r];
  }

  lemma ListedAppend(rs: seq<Replica>, ps: map<Id, Placement>, id: Id, p: Placement, r: Replica)
    requires Listed(rs, ps, p.obj) && id !in ps && Live(p) && Of(r, p) && forall x <- rs :: x.id != r.id
    ensures Listed(rs + [r], ps[id := p], p.obj)
  {
    hide HasReplica, HasPlacement, Of;
    var qs := ps[id := p];
    LiveOfAdded(ps, id, p, p.obj);
    forall q | q in LivePlacements(qs, p.obj)
      ensures HasReplica(rs + [r], qs[q])
    {
      HasReplicaGrows(rs, r, qs[q]);
    }
    forall x | x in rs + [r]
      ensures HasPlacement(qs, p.obj, x)
    {
      if x in rs {
        HasPlacementKept(ps, qs, p.obj, x);
      } else {
        HasOwnPlacement(qs, id, r);
      }
    }
  }

  lemma HasOwnPlacement(ps: map<Id, Placement>, id: Id, r: Replica)
    requires id in ps && Live(ps[id]) && Of(r, ps[id])
    ensures HasPlacement(ps, ps[id].obj, r)
  {
    assert id in LivePlacements(ps, ps[id].obj);
  }

  /** A placement replaced by one that is as live, under the same object and replica, or one of another object. */
  lemma ListedReplaced(rs: seq<Replica>, ps: map<Id, Placement>, id: Id, p: Placement, o: Id)
    requires Listed(rs, ps, o)
    requires (p.obj != o && (id in ps ==> ps[id].obj != o))
          || (id in ps && p.(lifecycle := ps[id].lifecycle) == ps[id] && (Live(p) <==> Live(ps[id])))
    ensures Listed(rs, ps[id := p], o)
  {
    hide HasReplica, HasPlacement, DistinctReplicas;
    var qs := ps[id := p];
    assert LivePlacements(qs, o) == LivePlacements(ps, o);
    forall q | q in LivePlacements(qs, o)
      ensures HasReplica(rs, qs[q])
    {
      SameReplica(rs, ps[q], qs[q]);
    }
    forall r | r in rs
      ensures HasPlacement(qs, o, r)
    {
      HasPlacementKept(ps, qs, o, r);
    }
  }

  lemma SameReplica(rs: seq<Replica>, p: Placement, q: Placement)
    requires q.(lifecycle := p.lifecycle) == p && HasReplica(rs, p)
    ensures HasReplica(rs, q)
  {
    var r :| r in rs && Of(r, p);
    assert Of(r, q);
  }

  /** Replicas carry the ids of placements, so a free placement id is a free replica id. */
  lemma ReplicasPlaced(f: Fabric, o: Id)
    requires Durable(f) && o in f.catalog
    ensures forall r <- f.catalog[o].replicaSet.replicas :: r.id in f.placements
  {
    forall r | r in f.catalog[o].replicaSet.replicas
      ensures r.id in f.placements
    {
      var q :| q in LivePlacements(f.placements, o) && Of(r, f.placements[q]);
    }
  }

  lemma ListingAdded(c: map<Id, Entry>, ps: map<Id, Placement>, e: Entry, p: Placement)
    requires Listing(c, ps) && p.obj in c && p.id !in ps && e.placements == c[p.obj].placements + [p.id]
    ensures Listing(c[p.obj := e], ps[p.id := p])
  {}

  lemma ListingSame(c: map<Id, Entry>, ps: map<Id, Placement>, d: map<Id, Entry>, qs: map<Id, Placement>)
    requires Listing(c, ps) && c.Keys == d.Keys && forall o <- c :: d[o].placements == c[o].placements
    requires ps.Keys == qs.Keys && forall p <- ps :: qs[p].obj == ps[p].obj
    ensures Listing(d, qs)
  {}

  lemma ListingDefined(c: map<Id, Entry>, ps: map<Id, Placement>, o: Id, e: Entry)
    requires Listing(c, ps) && e.placements == [] && forall p <- ps :: ps[p].obj != o
    ensures Listing(c[o := e], ps)
  {}

  lemma SomeListed(c: map<Id, Entry>, ps: map<Id, Placement>, p: Id)
    requires Listing(c, ps) && p in ps && ps[p].obj in c
    ensures c[ps[p].obj].placements != []
  {
    assert p in c[ps[p].obj].placements;
  }

  lemma PublishedPaired(f: Fabric, g: Fabric, obj: Object, p: Placement, man: Manifest)
    requires Paired(f) && obj.id in f.catalog && Placeable(f, p) && Published(f, g, obj, p, man)
    ensures Paired(g)
  {
    hide NewReplica, DomainsOf, ComputeState, Listing;
    ListingAdded(f.catalog, f.placements, WithPlacement(f, f.catalog[obj.id], p), p);
  }

  lemma PairedIds(f: Fabric)
    requires Paired(f)
    ensures f.ids.replica == f.ids.placement
  {}

  lemma PublishedDurable(f: Fabric, g: Fabric, obj: Object, p: Placement, man: Manifest)
    requires Durable(f) && obj.id in f.catalog && Placeable(f, p) && Published(f, g, obj, p, man)
    requires Of(NewReplica(f, p), p)
    ensures Durable(g)
  {
    hide Paired, Listed, WithPlacement, Cached, NewReplica, DistinctReplicas;
    assert f.ids.replica == f.ids.placement by { PairedIds(f); }
    ReplicasPlaced(f, obj.id);
    PublishedPaired(f, g, obj, p, man);
    assert Cached(f.catalog[obj.id]);
    AppendedEntry(f, f.catalog[obj.id], p);
    forall o | o in g.catalog
      ensures Cached(g.catalog[o]) && Listed(g.catalog[o].replicaSet.replicas, g.placements, o)
    {
      if o == obj.id {
        ListedAppend(f.catalog[o].replicaSet.replicas, f.placements, p.id, p, NewReplica(f, p));
      } else {
        ListedReplaced(f.catalog[o].replicaSet.replicas, f.placements, p.id, p, o);
      }
    }
  }

  lemma PublishDurable(f: Fabric, h: Hash, obj: Object, content: bytes, backend: Id, opts: Options, faults: Faults)
    requires Durable(f) && (backend in f.stores ==> Registered(f, backend)) && obj.id in f.catalog
    ensures Durable(Publish(f, h, obj, content, backend, opts, faults).1)
  {
    hide Publish, Chunking, VerifyFrom, BuiltManifest, Published, Listed, Cached, NewReplica;
    PublishEffect(f, h, obj, content, backend, opts, faults);
    var (r, g) := Publish(f, h, obj, content, backend, opts, faults);
    if r.Ok? {
      var w := Chunking(f, h, obj, content, backend, opts, faults);
      OwnReplica(f, r.value);
      PublishedDurable(f, g, obj, r.value, BuiltManifest(f.ids.manifest, h, obj, w.chunks));
    }
  }

  lemma OwnReplica(f: Fabric, p: Placement)
    requires Placeable(f, p)
    ensures Of(NewReplica(f, p), p)
  {}

  // ----- evict -----

  ghost predicate Mentions(rs: seq<Replica>, id: Id) {
    exists r :: r in rs && r.id == id
  }

  lemma DistinctSplit(first: Replica, rest: seq<Replica>)
    ensures DistinctReplicas([first] + rest) <==> DistinctReplicas(rest) && !Mentions(rest, first.id)
  {
    var rs := [first] + rest;
    assert forall i :: 0 <= i < |rest| ==> rest[i] == rs[i + 1];
    if Mentions(rest, first.id) {
      var i :| 0 <= i < |rest| && rest[i].id == first.id;
      assert rs[0].id == rs[i + 1].id;
    }
  }

  lemma MentionsSplit(first: Replica, rest: seq<Replica>, id: Id)
    ensures Mentions([first] + rest, id) <==> first.id == id || Mentions(rest, id)
  {
    if first.id == id {
      assert first in [first] + rest;
    }
    if r :| r in rest && r.id == id {
      assert r in [first] + rest;
    }
  }

  /** Erasing by id takes the one replica with it. */
  lemma {:induction false} WithoutReplicaMeans(rs: seq<Replica>, id: Id)
    requires DistinctReplicas(rs)
    ensures var w := WithoutReplica(rs, id);
      && DistinctReplicas(w)
      && (forall r :: r in w <==> r in rs && r.id != id)
      && |w| == |rs| - if Mentions(rs, id) then 1 else 0
    decreases |rs|
  {
    hide DistinctReplicas, Mentions;
    if rs == [] {
      NoneMentioned(id);
    } else {
      var rest := rs[1..];
      assert rs == [rs[0]] + rest;
      DistinctSplit(rs[0], rest);
      MentionsSplit(rs[0], rest, id);
      if rs[0].id == id {
        NotMentioned(rest, id);
      } else {
        WithoutReplicaMeans(rest, id);
        var w := WithoutReplica(rest, id);
        FewerMentioned(w, rest, rs[0].id);
        DistinctSplit(rs[0], w);
      }
    }
  }

  lemma NoneMentioned(id: Id)
    ensures !Mentions([], id) && DistinctReplicas([])
  {}

  lemma NotMentioned(rs: seq<Replica>, id: Id)
    requires !Mentions(rs, id)
    ensures forall r <- rs :: r.id != id
  {}

  lemma FewerMentioned(w: seq<Replica>, rs: seq<Replica>, id: Id)
    requires forall r :: r in w ==> r in rs
    ensures Mentions(w, id) ==> Mentions(rs, id)
  {}

  lemma LiveOfEvicted(ps: map<Id, Placement>, id: Id)
    requires id in ps && Live(ps[id])
    ensures var o := ps[id].obj;
      var qs := ps[id := EvictedPlacement(ps[id])];
      id in LivePlacements(ps, o) && LivePlacements(qs, o) == LivePlacements(ps, o) - {id}
      && |LivePlacements(qs, o)| == |LivePlacements(ps, o)| - 1
      && AvailablePlacements(qs, o) == AvailablePlacements(ps, o) - {id}
  {
    var o := ps[id].obj;
    var qs := ps[id := EvictedPlacement(ps[id])];
    assert LivePlacements(qs, o) == LivePlacements(ps, o) - {id};
    assert AvailablePlacements(qs, o) == AvailablePlacements(ps, o) - {id};
  }

  lemma ListedErase(rs: seq<Replica>, ps: map<Id, Placement>, id: Id)
    requires id in ps && Live(ps[id]) && Listed(rs, ps, ps[id].obj)
    requires forall q :: q in ps && q != id ==> ps[q].replica != ps[id].replica
    ensures Listed(WithoutReplica(rs, ps[id].replica), ps[id := EvictedPlacement(ps[id])], ps[id].obj)
  {
    hide DistinctReplicas, HasReplica, HasPlacement;
    var o := ps[id].obj;
    var w := WithoutReplica(rs, ps[id].replica);
    var qs := ps[id := EvictedPlacement(ps[id])];
    LiveOfEvicted(ps, id);
    WithoutReplicaMeans(rs, ps[id].replica);
    OwnReplicaListed(rs, ps[id]);
    forall p | p in LivePlacements(qs, o)
      ensures HasReplica(w, qs[p])
    {
      HasReplicaKept(rs, w, ps[id].replica, ps[p]);
    }
    forall r | r in w
      ensures HasPlacement(qs, o, r)
    {
      HasPlacementKept(ps, qs, o, r);
    }
  }

  lemma OwnReplicaListed(rs: seq<Replica>, p: Placement)
    requires HasReplica(rs, p)
    ensures exists r :: r in rs && r.id == p.replica
  {
    var r :| r in rs && Of(r, p);
  }

  lemma HasReplicaKept(rs: seq<Replica>, w: seq<Replica>, id: Id, p: Placement)
    requires HasReplica(rs, p) && p.replica != id && forall r :: r in rs && r.id != id ==> r in w
    ensures HasReplica(w, p)
  {
    var r :| r in rs && Of(r, p);
    assert r in w;
  }

  lemma EvictedShape(f: Fabric, id: Id, faults: Faults)
    requires id in f.placements && f.placements[id].obj in f.catalog
    ensures var p := f.placements[id];
      var g := Evicted(f, id, faults);
      && g.placements == f.placements[id := EvictedPlacement(p)] && g.ids == f.ids && g.manifests == f.manifests
      && g.stores.Keys == f.stores.Keys && g.descriptors == f.descriptors && g.tiers == f.tiers
      && g.catalog == f.catalog[p.obj := EvictedEntry(f.catalog[p.obj], p.replica)]
  {
    hide DropAll, BlobsOf, L.RemoveCommitted, EvictedEntry;
  }

  lemma EvictedEntryKeeps(e: Entry, replica: Id)
    ensures var g := EvictedEntry(e, replica);
      g.obj == e.obj && g.replicaSet.obj == e.replicaSet.obj && g.placements == e.placements
  {
    hide WithoutReplica, DomainsOf, ComputeState;
  }

  lemma KeyedReplaced(c: map<Id, Entry>, o: Id, e: Entry)
    requires Keyed(c) && o in c && e.obj == c[o].obj && e.replicaSet.obj == c[o].replicaSet.obj
    ensures Keyed(c[o := e])
  {}

  lemma EvictedPaired(f: Fabric, id: Id, faults: Faults)
    requires Paired(f) && id in f.placements && f.placements[id].obj in f.catalog
    ensures Paired(Evicted(f, id, faults)) && f.catalog[f.placements[id].obj].placements != []
    ensures forall q :: q in f.placements && q != id ==> f.placements[q].replica != f.placements[id].replica
  {
    hide Evicted, EvictedEntry, Listing, Keyed;
    var p := f.placements[id];
    EvictedShape(f, id, faults);
    EvictedEntryKeeps(f.catalog[p.obj], p.replica);
    SomeListed(f.catalog, f.placements, id);
    KeyedReplaced(f.catalog, p.obj, EvictedEntry(f.catalog[p.obj], p.replica));
    var g := Evicted(f, id, faults);
    ListingSame(f.catalog, f.placements, g.catalog, g.placements);
  }

  lemma EvictDurable(f: Fabric, id: Id, faults: Faults)
    requires Durable(f)
    ensures Durable(Evict(f, id, faults).1)
  {
    hide Listed, DropAll, BlobsOf, L.RemoveCommitted, WithoutReplica, Paired;
    var (o, g) := Evict(f, id, faults);
    if o.Pass? {
      var p := f.placements[id];
      EvictedPaired(f, id, faults);
      forall o | o in g.catalog
        ensures Cached(g.catalog[o]) && Listed(g.catalog[o].replicaSet.replicas, g.placements, o)
      {
        if o == p.obj {
          ListedErase(f.catalog[o].replicaSet.replicas, f.placements, id);
        } else {
          ListedReplaced(f.catalog[o].replicaSet.replicas, f.placements, id, EvictedPlacement(p), o);
        }
      }
    }
  }

  // ----- The other operations -----

  lemma DemotedPaired(f: Fabric, id: Id)
    requires Paired(f)
    ensures Paired(Demoted(f, id))
  {
    hide Listing;
    ListingSame(f.catalog, f.placements, f.catalog, Demoted(f, id).placements);
  }

  lemma DemoteDurable(f: Fabric, id: Id)
    requires Durable(f) && (id in f.placements ==> Live(f.placements[id]))
    ensures Durable(Demoted(f, id))
  {
    hide Listed, Cached, Paired;
    if id in f.placements {
      DemotedPaired(f, id);
      forall o | o in f.catalog
        ensures Listed(f.catalog[o].replicaSet.replicas, Demoted(f, id).placements, o)
      {
        ListedReplaced(f.catalog[o].replicaSet.replicas, f.placements, id, Demoted(f, id).placements[id], o);
      }
    }
  }

  lemma DefinedId(f: Fabric, h: Hash, kind: Enum, content: bytes, writer: Authority, minReplicas: nat, priority: Enum)
    requires |content| < TWO_64
    ensures DefinedObject(f, h, kind, content, writer, minReplicas, priority).id == f.ids.obj
  {}

  lemma DefineDurable(f: Fabric, h: Hash, kind: Enum, size: nat, content: bytes, writer: Authority,
                      minReplicas: nat, priority: Enum)
    requires Durable(f) && |content| < TWO_64
    ensures Durable(DefineObject(f, h, kind, size, content, writer, minReplicas, priority).1)
  {
    hide Listed, Cached, DefinedObject, Paired;
    DefinedId(f, h, kind, content, writer, minReplicas, priority);
    var o := DefinedObject(f, h, kind, content, writer, minReplicas, priority);
    DefinedPaired(f, o, minReplicas);
    if f.ids.obj !in f.catalog {
      NothingListed(f.placements, o.id);
      NothingCached(o, minReplicas);
    }
  }

  lemma DefinedPaired(f: Fabric, o: Object, minReplicas: nat)
    requires Paired(f) && o.id == f.ids.obj
    ensures Paired(f.(ids := f.ids.(obj := f.ids.obj + 1)))
    ensures o.id !in f.catalog ==>
      var e := Entry(o, ReplicaSet(o.id, 1, Max(minReplicas, 1), 0, 0, 0, UNDER_REPLICATED, 0, [], 0), []);
      Paired(f.(ids := f.ids.(obj := f.ids.obj + 1), catalog := f.catalog[o.id := e]))
      && forall p <- f.placements :: f.placements[p].obj != o.id
  {
    hide Listing;
    if o.id !in f.catalog {
      var e := Entry(o, ReplicaSet(o.id, 1, Max(minReplicas, 1), 0, 0, 0, UNDER_REPLICATED, 0, [], 0), []);
      ListingDefined(f.catalog, f.placements, o.id, e);
    }
  }

  lemma NothingCached(o: Object, minReplicas: nat)
    ensures Cached(Entry(o, ReplicaSet(o.id, 1, Max(minReplicas, 1), 0, 0, 0, UNDER_REPLICATED, 0, [], 0), []))
  {
    assert DomainsOf([]) == {};
  }

  lemma NothingListed(ps: map<Id, Placement>, o: Id)
    requires forall p <- ps :: ps[p].obj != o
    ensures Listed([], ps, o)
  {
    assert LivePlacements(ps, o) == {};
  }

  // ----- The floor -----

  /** No placement is between AVAILABLE and EVICTED: what holds while nothing is moved. */
  ghost predicate Unmoved(f: Fabric) {
    forall p <- f.placements :: Live(f.placements[p]) ==> f.placements[p].lifecycle == AVAILABLE
  }

  lemma LiveCount(f: Fabric, o: Id)
    requires Durable(f) && o in f.catalog
    ensures f.catalog[o].replicaSet.authoritative == |LivePlacements(f.placements, o)|
  {
    assert Cached(f.catalog[o]) && Listed(f.catalog[o].replicaSet.replicas, f.placements, o);
  }

  /** While nothing was moved, an eviction that is allowed leaves the required number of AVAILABLE copies,
      hence at least one. */
  lemma EvictFloor(f: Fabric, id: Id, faults: Faults)
    requires Durable(f) && Unmoved(f) && Evict(f, id, faults).0.Pass?
    ensures var o := f.placements[id].obj;
      1 <= f.catalog[o].replicaSet.required <= |AvailablePlacements(Evict(f, id, faults).1.placements, o)|
  {
    hide Listed, Cached, Evicted;
    var o := f.placements[id].obj;
    EvictedShape(f, id, faults);
    LiveOfEvicted(f.placements, id);
    LiveCount(f, o);
    AtLeastOne(f, o);
    assert AvailablePlacements(f.placements, o) == LivePlacements(f.placements, o);
  }

  lemma AtLeastOne(f: Fabric, o: Id)
    requires Durable(f) && o in f.catalog
    ensures f.catalog[o].replicaSet.required >= 1
  {
    assert Cached(f.catalog[o]);
  }

  /** In general the count evict looks at includes demoted copies: an allowed eviction of an AVAILABLE copy
      keeps the floor exactly when there were more AVAILABLE copies than required. */
  lemma EvictFloorIff(f: Fabric, id: Id, faults: Faults)
    requires Durable(f) && Evict(f, id, faults).0.Pass? && f.placements[id].lifecycle == AVAILABLE
    ensures var o := f.placements[id].obj;
      var required := f.catalog[o].replicaSet.required;
      (required <= |AvailablePlacements(Evict(f, id, faults).1.placements, o)|)
      <==> (required < |AvailablePlacements(f.placements, o)|)
  {
    hide Listed, Cached, Evicted;
    EvictedShape(f, id, faults);
    LiveOfEvicted(f.placements, id);
  }

  /** Demoted copies that were not evicted. */
  ghost function DemotedPlacements(ps: map<Id, Placement>, o: Id): set<Id> {
    set p | p in ps && ps[p].obj == o && Live(ps[p]) && ps[p].lifecycle != AVAILABLE
  }

  /** The count evict compares is that of the AVAILABLE copies and the demoted ones together. */
  lemma CountedCopies(f: Fabric, o: Id)
    requires Durable(f) && o in f.catalog
    ensures f.catalog[o].replicaSet.authoritative
         == |AvailablePlacements(f.placements, o)| + |DemotedPlacements(f.placements, o)|
  {
    hide Listed, Cached;
    LiveCount(f, o);
    var available, demoted := AvailablePlacements(f.placements, o), DemotedPlacements(f.placements, o);
    assert LivePlacements(f.placements, o) == available + demoted && available !! demoted;
  }

  /** So demoted copies are exactly what evict miscounts: it lets an AVAILABLE copy go below the required number
      exactly when no more are AVAILABLE than required but with the demoted ones there seem to be. */
  lemma EvictMiscountsIff(f: Fabric, id: Id, faults: Faults)
    requires Durable(f) && id in f.placements && f.placements[id].lifecycle == AVAILABLE
    ensures f.placements[id].obj in f.catalog
    ensures var o := f.placements[id].obj;
      var required := f.catalog[o].replicaSet.required;
      var available := |AvailablePlacements(f.placements, o)|;
      var (outcome, g) := Evict(f, id, faults);
      (outcome.Pass? && |AvailablePlacements(g.placements, o)| < required)
      <==> (available <= required < available + |DemotedPlacements(f.placements, o)|)
  {
    hide Listed, Cached, Evicted;
    CountedCopies(f, f.placements[id].obj);
    if Evict(f, id, faults).0.Pass? {
      EvictFloorIff(f, id, faults);
    }
  }

  /** Whatever single copy is required and available: moving it and evicting the new copy is allowed and
      leaves none. */
  lemma MoveLosesFloor(f: Fabric, h: Hash, source: Id, target: Id, opts: Options, readFaults: Faults, faults: Faults)
    requires Durable(f) && source in f.placements && f.placements[source].obj in f.catalog
    requires target in f.stores ==> Registered(f, target)
    requires var p := f.placements[source];
      AvailablePlacements(f.placements, p.obj) == {source} && p.id == source
      && f.catalog[p.obj].replicaSet.required == p.durabilityReplicas == 1 && opts.required <= 1
      && f.catalog[p.obj].obj.id == p.obj && f.catalog[p.obj].obj.minReplicas <= 1
    requires Move(f, h, f.placements[source], target, opts, readFaults, faults).0.Ok?
    ensures var o := f.placements[source].obj;
      var (r, g) := Move(f, h, f.placements[source], target, opts, readFaults, faults);
      AvailablePlacements(g.placements, o) == {r.value.id}
      && Evict(g, r.value.id, faults).0 == Pass
      && AvailablePlacements(Evict(g, r.value.id, faults).1.placements, o) == {}
  {
    hide Publish, Chunking, VerifyFrom, BuiltManifest, Durable, Evicted, WithPlacement, ReadById;
    var p := f.placements[source];
    var obj := f.catalog[p.obj].obj;
    var (r, g) := Move(f, h, p, target, opts, readFaults, faults);
    var data := ReadById(f, source, readFaults).value;
    var o := if opts.required == 0 then opts.(required := p.durabilityReplicas) else opts;
    PublishEffect(f, h, obj, data, target, o, faults);
    PublishDurable(f, h, obj, data, target, o, faults);
    var k := Publish(f, h, obj, data, target, o, faults).1;
    RequiredAfter(f, k, h, obj, data, target, o, faults, r.value);
    DemoteDurable(k, source);
    LiveCount(g, p.obj);
    Swapped(f.placements, source, r.value);
    TwoLive(g, p.obj, source, r.value.id);
    LiveOfEvicted(g.placements, r.value.id);
    EvictedShape(g, r.value.id, faults);
  }

  lemma Swapped(ps: map<Id, Placement>, source: Id, p: Placement)
    requires source in ps && p.id !in ps && p.obj == ps[source].obj && p.lifecycle == AVAILABLE
    requires AvailablePlacements(ps, p.obj) == {source}
    ensures var qs := ps[p.id := p][source := ps[source].(lifecycle := LIFECYCLE_STALE)];
      AvailablePlacements(qs, p.obj) == {p.id}
      && source in LivePlacements(qs, p.obj) && p.id in LivePlacements(qs, p.obj)
  {
    var qs := ps[p.id := p][source := ps[source].(lifecycle := LIFECYCLE_STALE)];
    forall q | q in qs
      ensures q in AvailablePlacements(qs, p.obj) <==> q == p.id
    {
      assert q == p.id || q == source || (q in ps && qs[q] == ps[q] && q !in AvailablePlacements(ps, p.obj));
    }
  }

  lemma TwoLive(f: Fabric, o: Id, a: Id, b: Id)
    requires a in LivePlacements(f.placements, o) && b in LivePlacements(f.placements, o) && a != b
    ensures |LivePlacements(f.placements, o)| >= 2
  {
    var s := LivePlacements(f.placements, o);
    assert |s| == |s - {a}| + 1 && b in s - {a};
  }

  /** The number of copies required after a publication. */
  lemma RequiredAfter(f: Fabric, g: Fabric, h: Hash, obj: Object, content: bytes, backend: Id, opts: Options,
                      faults: Faults, p: Placement)
    requires Durable(f) && obj.id in f.catalog && Succeeded(f, g, h, obj, content, backend, opts, faults, p)
    ensures obj.id in g.catalog
    ensures g.catalog[obj.id].replicaSet.required == Max(f.catalog[obj.id].replicaSet.required, Copies(obj, opts))
  {
    hide Chunking, VerifyFrom, BuiltManifest, NewReplica, Listed, WithPlacement;
    ReplicasPlaced(f, obj.id);
    AppendedEntry(f, f.catalog[obj.id], p);
  }

  // ----- The counters -----

  /** No counter points at an id that is taken: what holds until something is recovered. */
  ghost predicate Ahead(f: Fabric) {
    && f.ids.obj > 0 && f.ids.manifest > 0
    && (forall o <- f.catalog :: 0 < o < f.ids.obj)
    && (forall m <- f.manifests :: m < f.ids.manifest)
    && (forall p <- f.placements :: p < f.ids.placement)
  }

  lemma PublishAhead(f: Fabric, h: Hash, obj: Object, content: bytes, backend: Id, opts: Options, faults: Faults)
    requires Ahead(f) && (backend in f.stores ==> Registered(f, backend)) && obj.id in f.catalog
    ensures Ahead(Publish(f, h, obj, content, backend, opts, faults).1)
  {
    hide Publish, Chunking, VerifyFrom, BuiltManifest, WithPlacement;
    PublishEffect(f, h, obj, content, backend, opts, faults);
  }

  lemma EvictAhead(f: Fabric, id: Id, faults: Faults)
    requires Ahead(f)
    ensures Ahead(Evict(f, id, faults).1)
  {
    hide DropAll, BlobsOf, L.RemoveCommitted, EvictedEntry;
  }

  lemma DefineAhead(f: Fabric, h: Hash, kind: Enum, size: nat, content: bytes, writer: Authority,
                    minReplicas: nat, priority: Enum)
    requires Ahead(f) && |content| < TWO_64
    ensures var (r, g) := DefineObject(f, h, kind, size, content, writer, minReplicas, priority);
      Ahead(g) && r != Err(DuplicateIdentity)
  {
    hide RunnerText;
  }
}
