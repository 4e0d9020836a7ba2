/** src/runtime.cpp: the snapshot save builds, and what recover makes of it. */
module Recovery {
  import opened Bytes
  import opened Status
  import opened Model
  import opened AuthorityOrder
  import opened BlobStore
  import opened Sums
  import opened Runtime
  import opened Effects
  import opened Safety
  import opened ReadBack

  // ----- save -----

  /** A map's keys, each once, in the order an iteration meets them. */
  ghost predicate Enumerates(order: seq<Id>, keys: set<Id>) {
    (forall i, j :: 0 <= i < j < |order| ==> order[i] != order[j]) && (forall k :: k in order <==> k in keys)
  }

  ghost function Values<V>(m: map<Id, V>, order: seq<Id>): seq<V>
    requires forall k <- order :: k in m
  {
    seq(|order|, i requires 0 <= i < |order| => m[order[i]])
  }

  method Enumerate(keys: set<Id>) returns (order: seq<Id>)
    ensures Enumerates(order, keys)
  {
    order := [];
    var left := keys;
    while left != {}
      invariant left <= keys && Enumerates(order, keys - left)
      decreases |left|
    {
      var k :| k in left;
      order := order + [k];
      left := left - {k};
    }
    assert keys - left == keys;
  }

  method Collect<V>(m: map<Id, V>, order: seq<Id>) returns (vs: seq<V>)
    requires forall k <- order :: k in m
    ensures vs == Values(m, order)
  {
    vs := [];
    for i := 0 to |order|
      invariant |vs| == i && forall j :: 0 <= j < i ==> vs[j] == m[order[j]]
    {
      vs := vs + [m[order[i]]];
    }
  }

  /** The orders in which four maps were iterated. */
  datatype Orders = Orders(catalog: seq<Id>, manifests: seq<Id>, placements: seq<Id>, backends: seq<Id>)

  ghost predicate SnapshotOf(f: Fabric, s: Snapshot, o: Orders) {
    && Enumerates(o.catalog, f.catalog.Keys) && Enumerates(o.manifests, f.manifests.Keys)
    && Enumerates(o.placements, f.placements.Keys) && Enumerates(o.backends, f.descriptors.Keys)
    && s.epoch == f.authority.epoch && s.authority == f.authority && s.policyGeneration == f.policyGeneration
    && s.manifests == Values(f.manifests, o.manifests) && s.placements == Values(f.placements, o.placements)
    && s.backends == Values(f.descriptors, o.backends)
    && |s.objects| == |s.replicaSets| == |o.catalog|
    && forall i :: 0 <= i < |o.catalog| ==>
         s.objects[i] == f.catalog[o.catalog[i]].obj && s.replicaSets[i] == f.catalog[o.catalog[i]].replicaSet
  }

  /** The part of save before the file is written. */
  method BuildSnapshot(fabric: StorageFabric, accounting: seq<nat>) returns (s: Snapshot, ghost o: Orders)
    ensures SnapshotOf(fabric.Abs(), s, o) && s.accounting == accounting && s.savedAt == 0
    ensures s.transfers == [] && s.authorities == []
  {
    var catalog := Enumerate(fabric.catalog.Keys);
    var objects: seq<Object>, replicaSets: seq<ReplicaSet> := [], [];
    for i := 0 to |catalog|
      invariant |objects| == |replicaSets| == i
      invariant forall j :: 0 <= j < i ==>
        objects[j] == fabric.catalog[catalog[j]].obj && replicaSets[j] == fabric.catalog[catalog[j]].replicaSet
    {
      objects := objects + [fabric.catalog[catalog[i]].obj];
      replicaSets := replicaSets + [fabric.catalog[catalog[i]].replicaSet];
    }
    var manifestOrder := Enumerate(fabric.manifests.Keys);
    var manifests := Collect(fabric.manifests, manifestOrder);
    var placementOrder := Enumerate(fabric.placements.Keys);
    var placements := Collect(fabric.placements, placementOrder);
    var backendOrder := Enumerate(fabric.descriptors.Keys);
    var backends := Collect(fabric.descriptors, backendOrder);
    o := Orders(catalog, manifestOrder, placementOrder, backendOrder);
    s := Snapshot(fabric.authority.epoch, fabric.authority, fabric.policyGeneration, 0, accounting,
                  objects, manifests, placements, replicaSets, backends, [], []);
  }

  // ----- recover: the records -----

  function Last<T>(s: seq<T>): T
    requires s != []
  {
    s[|s| - 1]
  }

  function Front<T>(s: seq<T>): seq<T>
    requires s != []
  {
    s[..|s| - 1]
  }

  const NO_REPLICAS: ReplicaSet := ReplicaSet(0, 0, 1, 0, 0, 0, UNDER_REPLICATED, 0, [], 0)

  /** emplace: an entry that exists stays. */
  function Emplaced<V>(m: map<Id, V>, id: Id, v: V): map<Id, V> {
    if id in m then m else m[id := v]
  }

  function WithObjects(c: map<Id, Entry>, os: seq<Object>): map<Id, Entry>
    decreases |os|
  {
    if os == [] then c else Emplaced(WithObjects(c, Front(os)), Last(os).id, Entry(Last(os), NO_REPLICAS, []))
  }

  function WithSet(c: map<Id, Entry>, rs: ReplicaSet): map<Id, Entry> {
    if rs.obj in c then c[rs.obj := c[rs.obj].(replicaSet := rs)] else c
  }

  function WithSets(c: map<Id, Entry>, rss: seq<ReplicaSet>): map<Id, Entry>
    decreases |rss|
  {
    if rss == [] then c else WithSet(WithSets(c, Front(rss)), Last(rss))
  }

  function WithManifests(m: map<Id, Manifest>, ms: seq<Manifest>): map<Id, Manifest>
    decreases |ms|
  {
    if ms == [] then m else Emplaced(WithManifests(m, Front(ms)), Last(ms).id, Last(ms))
  }

  function WithPlacements(m: map<Id, Placement>, ps: seq<Placement>): map<Id, Placement>
    decreases |ps|
  {
    if ps == [] then m else Emplaced(WithPlacements(m, Front(ps)), Last(ps).id, Last(ps))
  }

  function Attached(c: map<Id, Entry>, p: Placement): map<Id, Entry> {
    if p.obj in c then c[p.obj := c[p.obj].(placements := c[p.obj].placements + [p.id])] else c
  }

  function AttachedAll(c: map<Id, Entry>, ps: seq<Placement>): map<Id, Entry>
    decreases |ps|
  {
    if ps == [] then c else Attached(AttachedAll(c, Front(ps)), Last(ps))
  }

  function WithBackends(m: map<Id, Backend>, bs: seq<Backend>): map<Id, Backend>
    decreases |bs|
  {
    if bs == [] then m else Emplaced(WithBackends(m, Front(bs)), Last(bs).id, Last(bs))
  }

  // ----- recover: references and index -----

  /** One chunk counted and indexed. */
  function IndexOne(b: Blobs, c: Chunk): Blobs {
    Blobs(b.byDigest[c.digest := c.blob], b.digests[c.blob := c.digest], b.refs[c.blob := Refs(b, c.blob) + 1],
          b.sizes[c.blob := c.physicalLength], b.next)
  }

  function IndexAll(b: Blobs, cs: seq<Chunk>): Blobs
    decreases |cs|
  {
    if cs == [] then b else IndexOne(IndexAll(b, Front(cs)), Last(cs))
  }

  /** The chunks of all manifests, in the order an iteration meets these. */
  ghost function ChunksOf(ms: map<Id, Manifest>, order: seq<Id>): seq<Chunk>
    requires forall k <- order :: k in ms
    decreases |order|
  {
    if order == [] then [] else ChunksOf(ms, Front(order)) + ms[Last(order)].chunks
  }

  /** The blob counter raised above every counted blob, and no further. */
  ghost predicate Raised(b: Blobs, c: Blobs) {
    && c == b.(next := c.next) && b.next <= c.next
    && (forall id <- b.refs :: id < c.next)
    && (c.next == b.next || (c.next > 0 && c.next - 1 in b.refs))
  }

  function FreshAuthority(epoch: nat, boot: Id): Authority {
    Authority((epoch + 1) % TWO_64, boot, 0, 1, ORIGIN_RECOVERY)
  }

  ghost function Revalidate(ds: map<Id, Backend>, backends: set<Id>): map<Id, Backend> {
    map b | b in ds :: if b in backends then ds[b].(freshness := REVALIDATION_REQUIRED) else ds[b]
  }

  /** What recover turns state f into, the manifests being met in the given order. */
  ghost predicate Recovered(f: Fabric, s: Snapshot, boot: Id, order: seq<Id>, g: Fabric) {
    var manifests := WithManifests(f.manifests, s.manifests);
    && Enumerates(order, manifests.Keys)
    && Raised(IndexAll(f.blobs, ChunksOf(manifests, order)), g.blobs)
    && g == f.(
         catalog := AttachedAll(WithSets(WithObjects(f.catalog, s.objects), s.replicaSets), s.placements),
         manifests := manifests, placements := WithPlacements(f.placements, s.placements),
         descriptors := Revalidate(WithBackends(f.descriptors, s.backends), f.stores.Keys),
         blobs := g.blobs, authority := FreshAuthority(s.epoch, boot))
  }

  lemma FrontOf<T>(s: seq<T>, i: nat)
    requires i < |s|
    ensures Front(s[..i + 1]) == s[..i] && Last(s[..i + 1]) == s[i]
  {}

  /** recover, from the decoded snapshot on. */
  method Recover(fabric: StorageFabric, s: Snapshot, boot: Id) returns (ghost order: seq<Id>)
    modifies fabric
    ensures Recovered(old(fabric.Abs()), s, boot, order, fabric.Abs())
  {
    RecoverRecords(fabric, s);
    order := RebuildIndex(fabric);
    RaiseCounter(fabric);
    fabric.authority := FreshAuthority(s.epoch, boot);
    DowngradeObservations(fabric);
  }

  method RecoverRecords(fabric: StorageFabric, s: Snapshot)
    modifies fabric`catalog, fabric`manifests, fabric`placements, fabric`descriptors
    ensures fabric.catalog == AttachedAll(WithSets(WithObjects(old(fabric.catalog), s.objects), s.replicaSets), s.placements)
    ensures fabric.manifests == WithManifests(old(fabric.manifests), s.manifests)
    ensures fabric.placements == WithPlacements(old(fabric.placements), s.placements)
    ensures fabric.descriptors == WithBackends(old(fabric.descriptors), s.backends)
  {
    RecoverCatalog(fabric, s);
    RecoverManifests(fabric, s.manifests);
    RecoverPlacements(fabric, s.placements);
    RecoverDescriptors(fabric, s.backends);
  }

  method RecoverManifests(fabric: StorageFabric, ms: seq<Manifest>)
    modifies fabric`manifests
    ensures fabric.manifests == WithManifests(old(fabric.manifests), ms)
  {
    for i := 0 to |ms|
      invariant fabric.manifests == WithManifests(old(fabric.manifests), ms[..i])
    {
      FrontOf(ms, i);
      fabric.manifests := Emplaced(fabric.manifests, ms[i].id, ms[i]);
    }
    assert ms[..|ms|] == ms;
  }

  method RecoverPlacements(fabric: StorageFabric, ps: seq<Placement>)
    modifies fabric`placements, fabric`catalog
    ensures fabric.placements == WithPlacements(old(fabric.placements), ps)
    ensures fabric.catalog == AttachedAll(old(fabric.catalog), ps)
  {
    for i := 0 to |ps|
      invariant fabric.placements == WithPlacements(old(fabric.placements), ps[..i])
      invariant fabric.catalog == AttachedAll(old(fabric.catalog), ps[..i])
    {
      FrontOf(ps, i);
      var p := ps[i];
      fabric.placements := Emplaced(fabric.placements, p.id, p);
      if p.obj in fabric.catalog {
        var entry := fabric.catalog[p.obj];
        fabric.catalog := fabric.catalog[p.obj := entry.(placements := entry.placements + [p.id])];
      }
    }
    assert ps[..|ps|] == ps;
  }

  method RecoverDescriptors(fabric: StorageFabric, bs: seq<Backend>)
    modifies fabric`descriptors
    ensures fabric.descriptors == WithBackends(old(fabric.descriptors), bs)
  {
    for i := 0 to |bs|
      invariant fabric.descriptors == WithBackends(old(fabric.descriptors), bs[..i])
    {
      FrontOf(bs, i);
      fabric.descriptors := Emplaced(fabric.descriptors, bs[i].id, bs[i]);
    }
    assert bs[..|bs|] == bs;
  }

  method RecoverCatalog(fabric: StorageFabric, s: Snapshot)
    modifies fabric`catalog
    ensures fabric.catalog == WithSets(WithObjects(old(fabric.catalog), s.objects), s.replicaSets)
  {
    for i := 0 to |s.objects|
      invariant fabric.catalog == WithObjects(old(fabric.catalog), s.objects[..i])
    {
      FrontOf(s.objects, i);
      var o := s.objects[i];
      fabric.catalog := Emplaced(fabric.catalog, o.id, Entry(o, NO_REPLICAS, []));
    }
    assert s.objects[..|s.objects|] == s.objects;
    ghost var entered := fabric.catalog;
    for i := 0 to |s.replicaSets|
      invariant fabric.catalog == WithSets(entered, s.replicaSets[..i])
    {
      FrontOf(s.replicaSets, i);
      var rs := s.replicaSets[i];
      if rs.obj in fabric.catalog {
        fabric.catalog := fabric.catalog[rs.obj := fabric.catalog[rs.obj].(replicaSet := rs)];
      }
    }
    assert s.replicaSets[..|s.replicaSets|] == s.replicaSets;
  }

  method RebuildIndex(fabric: StorageFabric) returns (ghost order: seq<Id>)
    modifies fabric`blobs
    ensures Enumerates(order, fabric.manifests.Keys)
    ensures fabric.blobs == IndexAll(old(fabric.blobs), ChunksOf(fabric.manifests, order))
  {
    var left := fabric.manifests.Keys;
    order := [];
    while left != {}
      invariant left <= fabric.manifests.Keys && Enumerates(order, fabric.manifests.Keys - left)
      invariant fabric.blobs == IndexAll(old(fabric.blobs), ChunksOf(fabric.manifests, order))
      decreases |left|
    {
      var m :| m in left;
      left := left - {m};
      ghost var before := fabric.blobs;
      var chunks := fabric.manifests[m].chunks;
      for i := 0 to |chunks|
        invariant fabric.blobs == IndexAll(before, chunks[..i])
      {
        FrontOf(chunks, i);
        fabric.blobs := IndexOne(fabric.blobs, chunks[i]);
      }
      assert chunks[..|chunks|] == chunks;
      IndexJoin(old(fabric.blobs), ChunksOf(fabric.manifests, order), chunks);
      assert Front(order + [m]) == order;
      order := order + [m];
    }
    assert fabric.manifests.Keys - left == fabric.manifests.Keys;
  }

  lemma {:induction false} IndexJoin(b: Blobs, cs: seq<Chunk>, ds: seq<Chunk>)
    ensures IndexAll(IndexAll(b, cs), ds) == IndexAll(b, cs + ds)
    decreases |ds|
  {
    if ds == [] {
      assert cs + ds == cs;
    } else {
      IndexJoin(b, cs, Front(ds));
      assert Front(cs + ds) == cs + Front(ds);
    }
  }

  method RaiseCounter(fabric: StorageFabric)
    modifies fabric`blobs
    ensures Raised(old(fabric.blobs), fabric.blobs)
  {
    var left := fabric.blobs.refs.Keys;
    while left != {}
      invariant left <= fabric.blobs.refs.Keys
      invariant fabric.blobs == old(fabric.blobs).(next := fabric.blobs.next) && old(fabric.blobs.next) <= fabric.blobs.next
      invariant forall id :: id in fabric.blobs.refs && id !in left ==> id < fabric.blobs.next
      invariant fabric.blobs.next == old(fabric.blobs.next)
             || (fabric.blobs.next > 0 && fabric.blobs.next - 1 in fabric.blobs.refs)
      decreases |left|
    {
      var id :| id in left;
      left := left - {id};
      if id >= fabric.blobs.next {
        fabric.blobs := fabric.blobs.(next := id + 1);
      }
    }
  }

  method DowngradeObservations(fabric: StorageFabric)
    modifies fabric`descriptors
    ensures fabric.descriptors == Revalidate(old(fabric.descriptors), fabric.stores.Keys)
  {
    var left := fabric.stores.Keys;
    while left != {}
      invariant left <= fabric.stores.Keys
      invariant fabric.descriptors == Revalidate(old(fabric.descriptors), fabric.stores.Keys - left)
      decreases |left|
    {
      var b :| b in left;
      left := left - {b};
      if b in fabric.descriptors {
        fabric.descriptors := fabric.descriptors[b := fabric.descriptors[b].(freshness := REVALIDATION_REQUIRED)];
      }
    }
    assert fabric.stores.Keys - left == fabric.stores.Keys;
  }

  // ----- Authority and backends -----

  /** A backend of the list, whose id no other before it has. */
  ghost predicate FirstWith(bs: seq<Backend>, id: Id, b: Backend) {
    exists i :: 0 <= i < |bs| && bs[i] == b && b.id == id && forall j :: 0 <= j < i ==> bs[j].id != id
  }

  lemma FirstInFront(bs: seq<Backend>, id: Id, b: Backend)
    requires bs != [] && FirstWith(Front(bs), id, b)
    ensures FirstWith(bs, id, b)
  {
    var i :| 0 <= i < |bs| - 1 && Front(bs)[i] == b && b.id == id && forall j :: 0 <= j < i ==> Front(bs)[j].id != id;
    assert bs[i] == b && forall j :: 0 <= j < i ==> bs[j] == Front(bs)[j];
  }

  lemma FirstAtEnd(bs: seq<Backend>)
    requires bs != [] && forall b <- Front(bs) :: b.id != Last(bs).id
    ensures FirstWith(bs, Last(bs).id, Last(bs))
  {
    assert bs[|bs| - 1] == Last(bs) && forall j :: 0 <= j < |bs| - 1 ==> bs[j] in Front(bs);
  }

  lemma {:induction false} BackendsBack(m: map<Id, Backend>, bs: seq<Backend>)
    ensures var w := WithBackends(m, bs);
      && m.Keys <= w.Keys
      && forall id <- w :: if id in m then w[id] == m[id] else FirstWith(bs, id, w[id])
    decreases |bs|
  {
    hide FirstWith;
    if bs != [] {
      BackendsBack(m, Front(bs));
      BackendsKnown(m, Front(bs));
      var before := WithBackends(m, Front(bs));
      forall id | id in before && id !in m
        ensures FirstWith(bs, id, before[id])
      {
        FirstInFront(bs, id, before[id]);
      }
      if Last(bs).id !in before {
        FirstAtEnd(bs);
      }
    }
  }

  lemma {:induction false} BackendsKnown(m: map<Id, Backend>, bs: seq<Backend>)
    ensures forall b <- bs :: b.id in WithBackends(m, bs)
    ensures m.Keys <= WithBackends(m, bs).Keys
    decreases |bs|
  {
    if bs != [] {
      BackendsKnown(m, Front(bs));
      assert bs == Front(bs) + [Last(bs)];
    }
  }

  /** The runtime acts under an authority of its own, by RECOVERY (4), in the epoch after the saved one. Backends it knew
      keep their descriptors, the others get the first saved; those that are there need revalidation (2). */
  lemma RecoveredUnder(f: Fabric, s: Snapshot, boot: Id, order: seq<Id>, g: Fabric)
    requires Recovered(f, s, boot, order, g) && s.epoch < TWO_64
    ensures var a := g.authority;
      a.epoch == (if s.epoch == TWO_64 - 1 then 0 else s.epoch + 1) && a.boot == boot && a.worker == 0 && a.generation == 1
      && a.origin == 4
    ensures f.descriptors.Keys <= g.descriptors.Keys && forall b <- s.backends :: b.id in g.descriptors
    ensures forall b <- g.descriptors :: exists d: Backend ::
      && (if b in f.descriptors then d == f.descriptors[b] else FirstWith(s.backends, b, d))
      && g.descriptors[b] == if b in f.stores then d.(freshness := 2) else d
  {
    hide WithObjects, WithSets, AttachedAll, WithManifests, WithPlacements, IndexAll, ChunksOf, Raised, FirstWith, WithBackends;
    BackendsBack(f.descriptors, s.backends);
    BackendsKnown(f.descriptors, s.backends);
    forall b | b in g.descriptors
      ensures exists d: Backend ::
        && (if b in f.descriptors then d == f.descriptors[b] else FirstWith(s.backends, b, d))
        && g.descriptors[b] == if b in f.stores then d.(freshness := 2) else d
    {
      var d := WithBackends(f.descriptors, s.backends)[b];
      assert if b in f.descriptors then d == f.descriptors[b] else FirstWith(s.backends, b, d);
    }
  }

  // ----- The records come back -----

  lemma EnumeratesFront(order: seq<Id>, keys: set<Id>)
    requires Enumerates(order, keys) && order != []
    ensures Last(order) in keys && Enumerates(Front(order), keys - {Last(order)})
  {}

  lemma ValuesFront<V>(m: map<Id, V>, order: seq<Id>)
    requires order != [] && forall k <- order :: k in m
    ensures Front(Values(m, order)) == Values(m, Front(order)) && Last(Values(m, order)) == m[Last(order)]
  {}

  lemma {:induction false} ManifestsBack(m: map<Id, Manifest>, order: seq<Id>, keys: set<Id>)
    requires Enumerates(order, keys) && keys <= m.Keys && forall k <- m :: m[k].id == k
    ensures var w := WithManifests(map[], Values(m, order)); w.Keys == keys && forall k <- w :: w[k] == m[k]
    decreases |order|
  {
    if order != [] {
      EnumeratesFront(order, keys);
      ValuesFront(m, order);
      ManifestsBack(m, Front(order), keys - {Last(order)});
    }
  }

  lemma {:induction false} PlacementsBack(m: map<Id, Placement>, order: seq<Id>, keys: set<Id>)
    requires Enumerates(order, keys) && keys <= m.Keys && forall k <- m :: m[k].id == k
    ensures var w := WithPlacements(map[], Values(m, order)); w.Keys == keys && forall k <- w :: w[k] == m[k]
    decreases |order|
  {
    if order != [] {
      EnumeratesFront(order, keys);
      ValuesFront(m, order);
      PlacementsBack(m, Front(order), keys - {Last(order)});
    }
  }

  lemma {:induction false} ObjectsBack(c: map<Id, Entry>, order: seq<Id>, keys: set<Id>, os: seq<Object>)
    requires Enumerates(order, keys) && keys <= c.Keys && Keyed(c)
    requires |os| == |order| && forall i :: 0 <= i < |os| ==> os[i] == c[order[i]].obj
    ensures var w := WithObjects(map[], os); w.Keys == keys && forall k <- w :: w[k].obj == c[k].obj && w[k].placements == []
    decreases |order|
  {
    if order != [] {
      EnumeratesFront(order, keys);
      ObjectsBack(c, Front(order), keys - {Last(order)}, Front(os));
    }
  }

  /** Each entry gets the saved replica set of its object, if there is one. */
  lemma {:induction false} SetsBack(c: map<Id, Entry>, d: map<Id, Entry>, order: seq<Id>, keys: set<Id>, rss: seq<ReplicaSet>)
    requires Enumerates(order, keys) && keys <= c.Keys && Keyed(c) && c.Keys <= d.Keys
    requires |rss| == |order| && forall i :: 0 <= i < |rss| ==> rss[i] == c[order[i]].replicaSet
    ensures var w := WithSets(d, rss);
      w.Keys == d.Keys && (forall k <- w :: w[k].obj == d[k].obj && w[k].placements == d[k].placements)
      && (forall k <- w :: w[k].replicaSet == if k in keys then c[k].replicaSet else d[k].replicaSet)
    decreases |order|
  {
    if order != [] {
      EnumeratesFront(order, keys);
      SetsBack(c, d, Front(order), keys - {Last(order)}, Front(rss));
    }
  }

  ghost predicate Holds(vs: seq<Placement>, id: Id, o: Id) {
    exists p :: p in vs && p.id == id && p.obj == o
  }

  lemma {:induction false} AttachedBack(c: map<Id, Entry>, ps: seq<Placement>)
    ensures var w := AttachedAll(c, ps);
      && w.Keys == c.Keys
      && (forall o <- w :: w[o].obj == c[o].obj && w[o].replicaSet == c[o].replicaSet)
      && (forall o, id :: o in w ==>
            (id in w[o].placements <==> id in c[o].placements || Holds(ps, id, o)))
    decreases |ps|
  {
    if ps != [] {
      AttachedBack(c, Front(ps));
      var v := AttachedAll(c, Front(ps));
      var w := AttachedAll(c, ps);
      assert ps == Front(ps) + [Last(ps)];
      forall o, id | o in w
        ensures id in w[o].placements <==> id in c[o].placements || Holds(ps, id, o)
      {
        assert id in w[o].placements <==> id in v[o].placements || (Last(ps).id == id && Last(ps).obj == o);
      }
    }
  }

  // ----- The references are rebuilt -----

  lemma {:induction false} CountAppend(s: seq<Id>, t: seq<Id>, id: Id)
    ensures Count(s + t, id) == Count(s, id) + Count(t, id)
    decreases |s|
  {
    if s == [] {
      assert s + t == t;
    } else {
      CountAppend(s[1..], t, id);
      assert (s + t)[1..] == s[1..] + t;
    }
  }

  lemma CountChunks(cs: seq<Chunk>, ds: seq<Chunk>, id: Id)
    ensures Count(BlobsOf(cs + ds), id) == Count(BlobsOf(cs), id) + Count(BlobsOf(ds), id)
  {
    hide Count;
    assert BlobsOf(cs + ds) == BlobsOf(cs) + BlobsOf(ds);
    CountAppend(BlobsOf(cs), BlobsOf(ds), id);
  }

  const NO_BLOBS: Blobs := Blobs(map[], map[], map[], map[], 1)

  /** Each chunk's blob carries the digest it was recorded with. */
  ghost predicate Consistent(cs: seq<Chunk>, digests: map<Id, Digest>) {
    forall c <- cs :: c.blob in digests && digests[c.blob] == c.digest
  }

  /** The digests known are the recorded ones, and the index agrees with them. */
  ghost predicate Agrees(b: Blobs, digests: map<Id, Digest>) {
    && (forall id <- b.digests :: id in digests && b.digests[id] == digests[id])
    && (forall d <- b.byDigest :: b.byDigest[d] in b.digests && b.digests[b.byDigest[d]] == d)
  }

  /** Counting and indexing the chunks of all manifests, whatever their order, on top of any counts: one more
      reference for each occurrence, and an index that agrees with the recorded digests. */
  lemma {:induction false} IndexMeans(b0: Blobs, cs: seq<Chunk>, digests: map<Id, Digest>)
    requires Consistent(cs, digests) && Agrees(b0, digests)
    ensures var b := IndexAll(b0, cs);
      && b.next == b0.next && Agrees(b, digests)
      && (forall id :: Refs(b, id) == Refs(b0, id) + Count(BlobsOf(cs), id))
      && (forall id <- b.digests :: id in b.refs || id in b0.digests)
      && (forall c <- cs :: c.blob in b.digests)
    decreases |cs|
  {
    hide IndexOne, Agrees, Count, Refs;
    if cs == [] {
      CountNone();
    } else {
      assert cs == Front(cs) + [Last(cs)];
      assert Consistent(Front(cs), digests) && Last(cs) in cs;
      IndexMeans(b0, Front(cs), digests);
      forall id
        ensures Refs(IndexAll(b0, cs), id) == Refs(b0, id) + Count(BlobsOf(cs), id)
      {
        CountChunks(Front(cs), [Last(cs)], id);
        CountSingle(Last(cs), id);
        OneMore(IndexAll(b0, Front(cs)), Last(cs), id);
      }
      IndexedOne(IndexAll(b0, Front(cs)), Last(cs), digests);
    }
  }

  ghost predicate SizeOf(cs: seq<Chunk>, blob: Id, size: nat) {
    exists c :: c in cs && c.blob == blob && c.physicalLength == size
  }

  /** And each blob has the length of a chunk that names it. */
  lemma {:induction false} IndexSizes(b: Blobs, cs: seq<Chunk>)
    ensures forall c <- cs :: c.blob in IndexAll(b, cs).sizes && SizeOf(cs, c.blob, IndexAll(b, cs).sizes[c.blob])
    decreases |cs|
  {
    if cs != [] {
      IndexSizes(b, Front(cs));
      assert cs == Front(cs) + [Last(cs)];
    }
  }

  lemma OneMore(b: Blobs, c: Chunk, id: Id)
    ensures Refs(IndexOne(b, c), id) == Refs(b, id) + if id == c.blob then 1 else 0
  {}

  lemma IndexedOne(b: Blobs, c: Chunk, digests: map<Id, Digest>)
    requires Agrees(b, digests) && c.blob in digests && digests[c.blob] == c.digest
    ensures var i := IndexOne(b, c);
      i.next == b.next && Agrees(i, digests) && i.digests.Keys == b.digests.Keys + {c.blob} && i.refs.Keys == b.refs.Keys + {c.blob}
  {}

  lemma CountNone()
    ensures forall id :: Count(BlobsOf([]), id) == 0
  {}

  lemma CountSingle(c: Chunk, id: Id)
    ensures Count(BlobsOf([c]), id) == if id == c.blob then 1 else 0
  {
    assert BlobsOf([c]) == [c.blob];
  }

  ghost function Occurrences(ms: map<Id, Manifest>, keys: set<Id>, blob: Id): map<Id, nat> {
    map m | m in ms && m in keys :: Count(BlobsOf(ms[m].chunks), blob)
  }

  /** The chunks of all manifests name a blob as often as the manifests do together. */
  lemma {:induction false} OccurrencesSum(ms: map<Id, Manifest>, order: seq<Id>, keys: set<Id>, blob: Id)
    requires Enumerates(order, keys) && keys <= ms.Keys
    ensures Count(BlobsOf(ChunksOf(ms, order)), blob) == Sum(Occurrences(ms, keys, blob))
    decreases |order|
  {
    if order == [] {
      assert Occurrences(ms, keys, blob) == map[];
    } else {
      var k := Last(order);
      EnumeratesFront(order, keys);
      OccurrencesSum(ms, Front(order), keys - {k}, blob);
      CountChunks(ChunksOf(ms, Front(order)), ms[k].chunks, blob);
      var n := Count(BlobsOf(ms[k].chunks), blob);
      assert Occurrences(ms, keys, blob) == Occurrences(ms, keys - {k}, blob)[k := n];
      SumUpdate(Occurrences(ms, keys - {k}, blob), k, n);
    }
  }

  ghost function ManifestOf(ps: map<Id, Placement>): map<Id, Id> {
    map p | p in ps :: ps[p].manifest
  }

  /** Placements have manifests of their own, so together they use no blob more often than all manifests do. */
  lemma UsesCovered(ps: map<Id, Placement>, ms: map<Id, Manifest>, blob: Id)
    requires forall p <- ps :: ps[p].manifest in ms
    requires forall p, q :: p in ps && q in ps && p != q ==> ps[p].manifest != ps[q].manifest
    ensures Uses(ps, ms, blob) <= Sum(Occurrences(ms, ms.Keys, blob))
  {
    hide Count, Sum;
    SumInjective(UseTerms(ps, ms, blob), Occurrences(ms, ms.Keys, blob), ManifestOf(ps));
  }

  lemma {:induction false} ChunkInManifest(ms: map<Id, Manifest>, order: seq<Id>, c: Chunk)
    requires forall k <- order :: k in ms
    ensures c in ChunksOf(ms, order) <==> exists k :: k in order && c in ms[k].chunks
    decreases |order|
  {
    if order != [] {
      ChunkInManifest(ms, Front(order), c);
      assert order == Front(order) + [Last(order)];
    }
  }

  // ----- The theorem -----

  /** A runtime before its first operation, over backends that are registered and may hold bytes. */
  ghost predicate Blank(f: Fabric) {
    && f.catalog == map[] && f.placements == map[] && f.manifests == map[] && f.blobs == NO_BLOBS
    && f.ids == Counters(1, 1, 1, 1)
  }

  /** The same entries, each listing the object's placements again. */
  ghost predicate SameCatalog(c: map<Id, Entry>, d: map<Id, Entry>, ps: map<Id, Placement>) {
    && c.Keys == d.Keys
    && (forall o <- c :: d[o].obj == c[o].obj && d[o].replicaSet == c[o].replicaSet)
    && Listing(d, ps)
  }

  lemma CatalogBack(c: map<Id, Entry>, ps: map<Id, Placement>, order: seq<Id>, os: seq<Object>, rss: seq<ReplicaSet>,
                    vs: seq<Placement>)
    requires Keyed(c) && Enumerates(order, c.Keys)
    requires |os| == |rss| == |order| && forall o, p :: Holds(vs, p, o) <==> p in ps && ps[p].obj == o
    requires forall i :: 0 <= i < |os| ==> os[i] == c[order[i]].obj && rss[i] == c[order[i]].replicaSet
    ensures SameCatalog(c, AttachedAll(WithSets(WithObjects(map[], os), rss), vs), ps)
  {
    hide WithObjects, WithSets, AttachedAll, Holds, Keyed;
    ObjectsBack(c, order, c.Keys, os);
    var entered := WithObjects(map[], os);
    SetsBack(c, entered, order, c.Keys, rss);
    AttachedBack(WithSets(entered, rss), vs);
  }

  /** Catalog, placements and manifests are those that were saved. */
  lemma RecordsBack(f: Fabric, s: Snapshot, o: Orders, blank: Fabric, boot: Id, order: seq<Id>, g: Fabric)
    requires SnapshotOf(f, s, o) && Blank(blank) && Recovered(blank, s, boot, order, g) && Keyed(f.catalog)
    requires forall m <- f.manifests :: f.manifests[m].id == m
    requires forall p <- f.placements :: f.placements[p].id == p
    ensures g.placements == f.placements && g.manifests == f.manifests && g.stores == blank.stores
    ensures SameCatalog(f.catalog, g.catalog, f.placements)
  {
    hide Values, IndexAll, ChunksOf, Raised, WithObjects, WithSets, AttachedAll, WithManifests, WithPlacements, WithBackends,
      SameCatalog, Revalidate, Keyed;
    ManifestsBack(f.manifests, o.manifests, f.manifests.Keys);
    PlacementsBack(f.placements, o.placements, f.placements.Keys);
    forall c, p
      ensures Holds(s.placements, p, c) <==> p in f.placements && f.placements[p].obj == c
    {
      ValuesMember(f.placements, o.placements, p, c);
    }
    CatalogBack(f.catalog, f.placements, o.catalog, s.objects, s.replicaSets, s.placements);
    assert g.placements == f.placements && g.manifests == f.manifests;
  }

  lemma ValuesMember(m: map<Id, Placement>, order: seq<Id>, id: Id, c: Id)
    requires Enumerates(order, m.Keys) && forall k <- m :: m[k].id == k
    ensures Holds(Values(m, order), id, c) <==> id in m && m[id].obj == c
  {
    if id in m && m[id].obj == c {
      var i :| 0 <= i < |order| && order[i] == id;
      assert Values(m, order)[i] == m[id];
      assert m[id] in Values(m, order);
    }
  }

  /** The rebuilt counts and index cover every manifest, in a new runtime and on top of a running one. */
  lemma IndexBack(f: Fabric, h: Hash, b0: Blobs, order: seq<Id>, b: Blobs)
    requires Safe(f, h) && Enumerates(order, f.manifests.Keys) && (b0 == NO_BLOBS || b0 == f.blobs)
    requires Raised(IndexAll(b0, ChunksOf(f.manifests, order)), b)
    ensures Indexed(b) && (forall m <- f.manifests :: Recorded(b, f.manifests[m]))
    ensures forall blob :: Refs(b, blob) == Refs(b0, blob) + Sum(Occurrences(f.manifests, f.manifests.Keys, blob))
    ensures forall m <- f.manifests :: forall c <- f.manifests[m].chunks :: c.blob < b.next
  {
    hide IndexAll, ChunksOf, Uses, Sum, Occurrences, Count;
    var cs := ChunksOf(f.manifests, order);
    forall c: Chunk
      ensures c in cs <==> exists k :: k in order && c in f.manifests[k].chunks
    {
      ChunkInManifest(f.manifests, order, c);
    }
    forall c | c in cs
      ensures c.blob in f.blobs.digests && f.blobs.digests[c.blob] == c.digest
    {
      var k :| k in order && c in f.manifests[k].chunks;
      assert Recorded(f.blobs, f.manifests[k]);
    }
    IndexMeans(b0, cs, f.blobs.digests);
    forall m, c | m in f.manifests && c in f.manifests[m].chunks
      ensures c in cs && c.blob in b.digests && b.digests[c.blob] == c.digest && c.blob < b.next
    {
      assert m in order;
      assert Recorded(f.blobs, f.manifests[m]);
    }
    forall blob
      ensures Refs(b, blob) == Refs(b0, blob) + Sum(Occurrences(f.manifests, f.manifests.Keys, blob))
    {
      OccurrencesSum(f.manifests, order, f.manifests.Keys, blob);
    }
  }

  /** Saving and recovering into a blank runtime over the same backend contents: the records are back, blob
      safety holds again for the rebuilt counts, every placement that was not evicted reads the same bytes, and
      no manifest's blob will be handed out a second time. */
  lemma RecoverSafe(f: Fabric, h: Hash, s: Snapshot, o: Orders, blank: Fabric, boot: Id, order: seq<Id>, g: Fabric)
    requires Safe(f, h) && Keyed(f.catalog) && SnapshotOf(f, s, o)
    requires Blank(blank) && blank.stores == f.stores && Recovered(blank, s, boot, order, g)
    ensures Safe(g, h) && Preserves(f, g) && SameObjects(f, g)
    ensures forall m <- g.manifests :: forall c <- g.manifests[m].chunks :: c.blob < g.blobs.next
  {
    hide Uses, Occurrences, IndexAll, ChunksOf, WithObjects, WithSets, AttachedAll, WithManifests, WithPlacements,
      WithBackends, Raised, SameBytes, Indexed, Recorded, Sum, Refs, Backed;
    RecordsBack(f, s, o, blank, boot, order, g);
    IndexBack(f, h, NO_BLOBS, order, g.blobs);
    BackedManifests(f, h);
    forall blob
      ensures Uses(g.placements, g.manifests, blob) <= Refs(g.blobs, blob)
    {
      UsesCovered(f.placements, f.manifests, blob);
    }
    forall id | id in f.placements && Live(f.placements[id])
      ensures SameBytes(f, g, f.placements[id])
    {
      SameBytesAlso(f, g, f.placements[id]);
    }
  }

  lemma SameBytesAlso(f: Fabric, g: Fabric, p: Placement)
    requires SameBytes(f, f, p) && g.stores == f.stores && g.manifests == f.manifests
    ensures SameBytes(f, g, p)
  {}

  // ----- How exact the recovered counts are -----

  /** Some placement that was not evicted is behind the manifest. */
  ghost predicate InUse(f: Fabric, m: Id) {
    exists p :: p in f.placements && Live(f.placements[p]) && f.placements[p].manifest == m
  }

  /** Recovery counts every manifest: the counts are exact exactly when no manifest with chunks is left over
      from an eviction or a failed publication. */
  lemma RecoveredExactIff(f: Fabric, h: Hash)
    requires Safe(f, h)
    requires forall blob :: Refs(f.blobs, blob) == Sum(Occurrences(f.manifests, f.manifests.Keys, blob))
    ensures Exact(f) <==> forall m <- f.manifests :: f.manifests[m].chunks != [] ==> InUse(f, m)
  {
    hide Uses, Occurrences, Refs, Sum, Parts, InUse;
    if m :| m in f.manifests && f.manifests[m].chunks != [] && !InUse(f, m) {
      var c := f.manifests[m].chunks[0];
      LeftOver(f, h, m, c);
    } else {
      forall blob
        ensures Uses(f.placements, f.manifests, blob) == Refs(f.blobs, blob)
      {
        SafeIndexed(f, h);
        AllInUse(f, blob);
      }
    }
  }

  lemma LeftOver(f: Fabric, h: Hash, m: Id, c: Chunk)
    requires Safe(f, h) && m in f.manifests && c in f.manifests[m].chunks && !InUse(f, m)
    requires forall blob :: Refs(f.blobs, blob) == Sum(Occurrences(f.manifests, f.manifests.Keys, blob))
    ensures Uses(f.placements, f.manifests, c.blob) < Refs(f.blobs, c.blob)
  {
    var all := Occurrences(f.manifests, f.manifests.Keys, c.blob);
    hide Sum, Count, Indexed, Recorded, Refs;
    SumTake(all, m);
    CountPositive(f.manifests[m].chunks, c);
    var others := Occurrences(f.manifests, f.manifests.Keys - {m}, c.blob);
    assert all - {m} == others;
    UsesWithout(f, h, m, c.blob);
  }

  lemma UsesWithout(f: Fabric, h: Hash, m: Id, blob: Id)
    requires Safe(f, h) && m in f.manifests && !InUse(f, m)
    ensures Uses(f.placements, f.manifests, blob) <= Sum(Occurrences(f.manifests, f.manifests.Keys - {m}, blob))
  {
    hide Sum, Count, Indexed, Recorded, Refs;
    var ps := f.placements;
    var live := UseTerms(ps, f.manifests, blob) - (set p | p in ps && !Live(ps[p]));
    SumLive(ps, f.manifests, blob);
    forall p | p in live
      ensures ps[p].manifest in f.manifests && ps[p].manifest != m
    {
      assert Backed(h, f.stores, ps[p], f.manifests);
      assert Live(ps[p]);
    }
    SumInjective(live, Occurrences(f.manifests, f.manifests.Keys - {m}, blob), ManifestOf(ps));
  }

  /** Evicted placements add nothing. */
  lemma SumLive(ps: map<Id, Placement>, ms: map<Id, Manifest>, blob: Id)
    ensures Uses(ps, ms, blob) == Sum(UseTerms(ps, ms, blob) - (set p | p in ps && !Live(ps[p])))
  {
    hide Sum, Count;
    var dead := set p | p in ps && !Live(ps[p]);
    SumDrop(UseTerms(ps, ms, blob), dead);
  }

  lemma {:induction false} SumDrop(m: map<Id, nat>, zeros: set<Id>)
    requires forall k <- zeros :: k in m && m[k] == 0
    ensures Sum(m) == Sum(m - zeros)
    decreases |zeros|
  {
    if zeros == {} {
      assert m - zeros == m;
    } else {
      var k :| k in zeros;
      SumTake(m, k);
      SumDrop(m - {k}, zeros - {k});
      assert m - zeros == (m - {k}) - (zeros - {k});
    }
  }

  ghost function PlacementOf(f: Fabric, m: Id): Id
    requires InUse(f, m)
  {
    var p :| p in f.placements && Live(f.placements[p]) && f.placements[p].manifest == m; p
  }

  lemma AllInUse(f: Fabric, blob: Id)
    requires forall m <- f.manifests :: f.manifests[m].chunks != [] ==> InUse(f, m)
    ensures Sum(Occurrences(f.manifests, f.manifests.Keys, blob)) <= Uses(f.placements, f.manifests, blob)
  {
    hide Sum, Count;
    var all := Occurrences(f.manifests, f.manifests.Keys, blob);
    var empty := set m | m in f.manifests && f.manifests[m].chunks == [];
    NoChunks(f.manifests, empty, blob);
    SumDrop(all, empty);
    var to := map m | m in f.manifests && f.manifests[m].chunks != [] :: PlacementOf(f, m);
    SumInjective(all - empty, UseTerms(f.placements, f.manifests, blob), to);
  }

  lemma NoChunks(ms: map<Id, Manifest>, empty: set<Id>, blob: Id)
    requires forall m <- empty :: m in ms && ms[m].chunks == []
    ensures forall m <- empty :: Occurrences(ms, ms.Keys, blob)[m] == 0
  {}

  // ----- Authority and ids after recovery -----

  /** The new authority is newer than every one of the saved epoch or earlier, unless the epoch counter wraps. */
  lemma RecoveredNewer(epoch: U64, boot: Id)
    ensures (forall a: Authority :: a.epoch <= epoch ==> Newer(FreshAuthority(epoch, boot), a)) <==> epoch + 1 < TWO_64
  {
    var mine := FreshAuthority(epoch, boot);
    var last := Authority(epoch, boot, 0, 1, 0);
    if epoch + 1 < TWO_64 {
      assert mine.epoch == epoch + 1;
    } else {
      assert mine.epoch == 0 && !Newer(mine, last);
    }
  }

  /** The manifest and placement counters are not restored: while they point at recovered records, no
      publication of the recovered runtime succeeds. */
  lemma RecoveredRefuses(f: Fabric, s: Snapshot, o: Orders, blank: Fabric, boot: Id, order: seq<Id>, g: Fabric,
                         h: Hash, obj: Object, content: bytes, backend: Id, opts: Options, faults: Faults)
    requires SnapshotOf(f, s, o) && Blank(blank) && Recovered(blank, s, boot, order, g) && Safe(f, h) && Keyed(f.catalog)
    requires (backend in g.stores ==> Registered(g, backend)) && obj.id in g.catalog
    requires blank.ids.manifest in f.manifests || blank.ids.placement in f.placements
    ensures Publish(g, h, obj, content, backend, opts, faults).0.Err?
  {
    hide Publish, Chunking, VerifyFrom, BuiltManifest, WithPlacement, Uses, Indexed, Recorded, Backed, SameCatalog, Values,
      IndexAll, ChunksOf, Raised, WithObjects, WithSets, AttachedAll, WithManifests, WithPlacements, WithBackends, Keyed;
    RecordsBack(f, s, o, blank, boot, order, g);
    PublishEffect(g, h, obj, content, backend, opts, faults);
  }

  lemma RecoverExact(f: Fabric, h: Hash, s: Snapshot, o: Orders, blank: Fabric, boot: Id, order: seq<Id>, g: Fabric)
    requires Safe(f, h) && Keyed(f.catalog) && SnapshotOf(f, s, o)
    requires Blank(blank) && blank.stores == f.stores && Recovered(blank, s, boot, order, g)
    ensures Exact(g) <==> forall m <- f.manifests :: f.manifests[m].chunks != [] ==> InUse(f, m)
  {
    hide Uses, Occurrences, IndexAll, ChunksOf, WithObjects, WithSets, AttachedAll, WithManifests, WithPlacements,
      WithBackends, Raised, Indexed, Recorded, Sum, Refs, Backed, Parts, SameCatalog, Exact, InUse, Keyed, Preserves, Safe;
    RecoverSafe(f, h, s, o, blank, boot, order, g);
    SafeIds(f, h);
    RecordsBack(f, s, o, blank, boot, order, g);
    IndexBack(f, h, NO_BLOBS, order, g.blobs);
    forall blob
      ensures Refs(g.blobs, blob) == Sum(Occurrences(g.manifests, g.manifests.Keys, blob))
    {
      NoRefs(blob);
    }
    RecoveredExactIff(g, h);
    forall m
      ensures InUse(f, m) <==> InUse(g, m)
    {
      SameInUse(f, g, m);
    }
  }

  lemma NoRefs(blob: Id)
    ensures Refs(NO_BLOBS, blob) == 0
  {}

  lemma SafeIds(f: Fabric, h: Hash)
    requires Safe(f, h)
    ensures (forall m <- f.manifests :: f.manifests[m].id == m) && (forall p <- f.placements :: f.placements[p].id == p)
  {}

  lemma SameInUse(f: Fabric, g: Fabric, m: Id)
    requires f.placements == g.placements
    ensures InUse(f, m) <==> InUse(g, m)
  {}
}
