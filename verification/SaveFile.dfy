/** The metadata file of a running runtime, and what is recovered from it. */
module SaveFile {
  import opened Bytes
  import opened Status
  import opened Model
  import opened BlobStore
  import opened Runtime
  import opened Effects
  import opened Safety
  import opened CompatMap
  import opened Conservation
  import opened Durability
  import opened ReadBack
  import opened Runs
  import opened AfterRecovery
  import R = Recovery
  import Y = Layout
  import V = Records
  import S = Snapshots
  import U = Unreadable
  import B = FileLayout
  import F = FileLimits

  lemma DistinctValues<V>(m: map<Id, V>, order: seq<Id>, key: V -> nat)
    requires R.Enumerates(order, m.Keys)
    requires forall j, k :: j in m && k in m && j != k ==> key(m[j]) != key(m[k])
    ensures S.Distinct(V.Each(R.Values(m, order), key))
  {
    var vs := R.Values(m, order);
    forall i, j | 0 <= i < j < |vs|
      ensures key(vs[i]) != key(vs[j])
    {
      assert order[i] in order && order[j] in order;
    }
  }

  lemma DistinctObjects(c: map<Id, Entry>, order: seq<Id>, os: seq<Object>)
    requires R.Enumerates(order, c.Keys) && Keyed(c)
    requires |os| == |order| && forall i :: 0 <= i < |os| ==> os[i] == c[order[i]].obj
    ensures S.Distinct(V.Each(os, S.ObjectId))
  {
    forall i, j | 0 <= i < j < |os|
      ensures S.ObjectId(os[i]) != S.ObjectId(os[j])
    {
      assert order[i] in order && order[j] in order;
    }
  }

  /** What a runtime saves carries no id twice. */
  lemma SavedUnique(f: Fabric, h: Hash, s: Snapshot, o: R.Orders)
    requires Steady(f, h) && Durable(f) && R.SnapshotOf(f, s, o)
    ensures S.UniqueIds(s)
  {
    hide Parts, R.Values, S.Distinct, Listed, Cached, Wired, Keyed, Listing;
    WiredKeyed(f);
    SavedIds(f, h);
    DistinctObjects(f.catalog, o.catalog, s.objects);
    DistinctValues(f.manifests, o.manifests, S.ManifestId);
    DistinctValues(f.placements, o.placements, S.PlacementId);
    DistinctValues(f.placements, o.placements, S.ReplicaId);
  }

  lemma SavedIds(f: Fabric, h: Hash)
    requires Steady(f, h) && Durable(f)
    ensures forall j, k :: j in f.manifests && k in f.manifests && j != k ==>
      S.ManifestId(f.manifests[j]) != S.ManifestId(f.manifests[k])
    ensures forall j, k :: j in f.placements && k in f.placements && j != k ==>
      S.PlacementId(f.placements[j]) != S.PlacementId(f.placements[k])
      && S.ReplicaId(f.placements[j]) != S.ReplicaId(f.placements[k])
  {
    hide Parts, Listed, Cached, Wired, Keyed, Listing;
    R.SafeIds(f, h);
  }

  // ----- Compatibility maps -----

  /** Every object's compatibility map is a map: its entries come in key order. */
  ghost predicate InOrder(f: Fabric) {
    forall o <- f.catalog :: Ordered(f.catalog[o].obj.compatibility)
  }

  lemma PublishInOrder(f: Fabric, h: Hash, obj: Object, content: bytes, backend: Id, opts: Options, faults: Faults)
    requires InOrder(f) && (backend in f.stores ==> Registered(f, backend)) && obj.id in f.catalog
    ensures InOrder(Publish(f, h, obj, content, backend, opts, faults).1)
  {
    hide Publish, Chunking, VerifyFrom, BuiltManifest, NewReplica, Counts, Ordered;
    PublishEffect(f, h, obj, content, backend, opts, faults);
  }

  lemma ReplicateInOrder(f: Fabric, h: Hash, source: Placement, target: Id, opts: Options, readFaults: Faults, faults: Faults)
    requires Wired(f) && InOrder(f)
    ensures InOrder(Replicate(f, h, source, target, opts, readFaults, faults).1)
  {
    hide Replicate, Publish, ReadById, Wired, InOrder;
    RegisteredTarget(f, target);
    var o, data := ReplicatePublishes(f, h, source, target, opts, readFaults, faults);
    var (r, g) := Replicate(f, h, source, target, opts, readFaults, faults);
    if !(r.Err? && g == f) {
      PublishInOrder(f, h, f.catalog[source.obj].obj, data, target, o, faults);
    }
  }

  lemma EvictInOrder(f: Fabric, id: Id, faults: Faults)
    requires InOrder(f)
    ensures InOrder(Evict(f, id, faults).1)
  {
    hide Evicted, EvictedEntry, Ordered;
    if Evict(f, id, faults).0.Pass? {
      EvictedShape(f, id, faults);
      EvictedEntryKeeps(f.catalog[f.placements[id].obj], f.placements[id].replica);
    }
  }

  lemma DefineInOrder(f: Fabric, h: Hash, kind: Enum, size: nat, content: bytes, writer: Authority, minReplicas: nat,
                      priority: Enum)
    requires InOrder(f) && |content| < TWO_64
    ensures InOrder(DefineObject(f, h, kind, size, content, writer, minReplicas, priority).1)
  {
    hide RunnerText;
  }

  lemma SameInOrder(f: Fabric, g: Fabric)
    requires InOrder(f) && g.catalog == f.catalog
    ensures InOrder(g)
  {}

  lemma StepInOrder(f: Fabric, h: Hash, op: Op)
    requires Wired(f) && Allowed(f, op) && InOrder(f)
    ensures InOrder(Step(f, h, op))
  {
    hide Wired, InOrder, Publish, Replicate, Evict, DefineObject;
    match op
    case OpDefine(kind, size, content, writer, minReplicas, priority) =>
      DefineInOrder(f, h, kind, size, content, writer, minReplicas, priority);
    case OpPublish(obj, content, backend, opts, faults) =>
      RegisteredTarget(f, backend);
      PublishInOrder(f, h, obj, content, backend, opts, faults);
    case OpReplicate(source, target, opts, readFaults, faults) =>
      ReplicateInOrder(f, h, source, target, opts, readFaults, faults);
    case OpMove(source, target, opts, readFaults, faults) =>
      RegisteredTarget(f, target);
      ReplicateInOrder(f, h, source, target, opts, readFaults, faults);
      var k := Replicate(f, h, source, target, opts, readFaults, faults).1;
      SameInOrder(k, Step(f, h, op));
    case OpEvict(id, faults) => EvictInOrder(f, id, faults);
    case OpAuthority(a) => SameInOrder(f, Step(f, h, op));
    case OpRegister(desc, tier) => SameInOrder(f, Step(f, h, op));
  }

  lemma {:induction false} RunInOrder(f: Fabric, h: Hash, ops: seq<Op>)
    requires Steady(f, h) && AllowedRun(f, h, ops) && InOrder(f)
    ensures InOrder(Run(f, h, ops))
    decreases |ops|
  {
    hide Safe, Wired, InOrder, Allowed, Step, Preserves, SameObjects, Exact, Completed;
    if ops != [] {
      assert Wired(f);
      StepSteady(f, h, ops[0]);
      StepInOrder(f, h, ops[0]);
      RunInOrder(Step(f, h, ops[0]), h, ops[1..]);
    }
  }

  /** Recovery brings the objects back as they were. */
  lemma RestartInOrder(f: Fabric, g: Fabric, h: Hash, blank: Fabric, s: Snapshot, o: R.Orders, boot: Id, order: seq<Id>)
    requires Steady(f, h) && InOrder(f) && Restarted(f, g, blank, s, o, boot, order)
    ensures InOrder(g)
  {
    hide Safe, Wired, Started, R.SnapshotOf, R.Recovered, Ordered, Listing, Registered;
    RestartedParts(f, g, h, blank, s, o, boot, order);
  }

  /** What every run from an empty runtime leads to, in the first life and in every later one. */
  lemma {:induction false} LivesSavable(f: Fabric, h: Hash, lives: seq<Life>, end: Fabric)
    requires Steady(f, h) && Durable(f) && InOrder(f) && Lived(f, h, lives, end)
    ensures Steady(end, h) && Durable(end) && InOrder(end)
    decreases |lives|
  {
    hide Safe, Wired, InOrder, Durable, Restarted, Run, AllowedRun, Exact, R.InUse, Preserves, SameObjects, NeverLost;
    if lives != [] {
      var l := lives[0];
      var mid := Run(f, h, l.ops);
      RunPreserves(f, h, l.ops);
      RunNeverLost(f, h, l.ops);
      RunInOrder(f, h, l.ops);
      RestartContinues(mid, l.next, h, l.blank, l.snapshot, l.orders, l.boot, l.order);
      RestartDurable(mid, l.next, h, l.blank, l.snapshot, l.orders, l.boot, l.order);
      RestartInOrder(mid, l.next, h, l.blank, l.snapshot, l.orders, l.boot, l.order);
      LivesSavable(l.next, h, lives[1..], end);
    }
  }

  lemma ReachableSavable(f: Fabric, h: Hash)
    requires Reachable(f, h)
    ensures Steady(f, h) && Durable(f) && InOrder(f)
  {
    hide Safe, Wired, Tallied, Durable, Exact, Run, AllowedRun;
    ReachableSound(f, h);
    var ops :| AllowedRun(EmptyFabric(), h, ops) && Run(EmptyFabric(), h, ops) == f;
    RunInOrder(EmptyFabric(), h, ops);
  }

  // ----- The file -----

  lemma SavedMaps(f: Fabric, s: Snapshot, o: R.Orders)
    requires InOrder(f) && R.SnapshotOf(f, s, o)
    ensures S.MapsOrdered(s)
  {
    hide Ordered;
    forall x | x in s.objects
      ensures Ordered(x.compatibility)
    {
      var i :| 0 <= i < |s.objects| && s.objects[i] == x;
      assert o.catalog[i] in o.catalog;
    }
  }

  /** The file of a runtime, reached by any run or any number of lives, is read back as the snapshot saved exactly when
      that is within the decoder's limits and below 4 GiB: duplicate ids and disordered maps never stand in the way. */
  lemma SavedReadsBackIff(f: Fabric, h: Hash, s: Snapshot, o: R.Orders)
    requires Steady(f, h) && Durable(f) && InOrder(f) && R.SnapshotOf(f, s, o)
    requires Y.Typed(S.SnapshotData(s), S.SNAPSHOT)
    ensures (S.Serialized(s).Ok? && S.Deserialized(S.Serialized(s).value) == Ok(s)) <==>
      F.SnapshotFits(s) && |B.PayloadBytes(s)| < TWO_32
  {
    hide Steady, Durable, InOrder, R.SnapshotOf, Y.Typed, S.SnapshotData, S.Serialized, S.Deserialized, S.UniqueIds,
      S.MapsOrdered, F.SnapshotFits, B.FileBytes, B.PayloadBytes;
    SavedUnique(f, h, s, o);
    SavedMaps(f, s, o);
    F.FileOfSnapshot(s);
  }

  // ----- A reachable file that is not -----

  lemma {:induction false} TextLength(s: string)
    ensures |Text(s)| == |s|
    decreases |s|
  {
    if s != [] {
      TextLength(s[1..]);
    }
  }

  const WRITER := Authority(1, 1, 1, 1, ORIGIN_WORKER)

  lemma DefinedReachable(h: Hash, kind: Enum)
    ensures Reachable(DefineObject(EmptyFabric(), h, kind, 1, [7], WRITER, 1, 0).1, h)
  {
    hide Reachable, Steady, Publish, Replicate, Move, Evict, RegisterBackend, DefineObject;
    EmptyReachable(h);
    ReachableStep(EmptyFabric(), h, OpDefine(kind, 1, [7], WRITER, 1, 0));
  }

  /** define_object takes any byte as a kind. One object of a kind that does not exist, and the runtime saves a file that
      it will refuse. */
  lemma UnknownKindSaved(h: Hash, kind: Enum) returns (f: Fabric, s: Snapshot, o: R.Orders)
    requires 12 <= kind < 256 && |h([7])| == 32
    ensures Reachable(f, h) && R.SnapshotOf(f, s, o)
    ensures S.Serialized(s).Ok? && S.Deserialized(S.Serialized(s).value).Err?
  {
    hide Reachable, RunnerText, S.Serialized, S.Deserialized;
    DefinedReachable(h, kind);
    f := DefineObject(EmptyFabric(), h, kind, 1, [7], WRITER, 1, 0).1;
    s := U.Small([U.OfKind(kind, h([7]), RunnerText())], [U.FirstSet()], []);
    o := R.Orders([1], [], [], []);
    RunnerLength();
    U.UnknownKind(kind, h([7]), RunnerText());
  }

  lemma RunnerLength()
    ensures |RunnerText()| == 6
  {
    TextLength("runner");
  }

  // ----- Recovering from the file -----

  /** f saves file; a new process over the same backend contents reads the file and recovers g from it. */
  ghost predicate RecoveredFrom(f: Fabric, g: Fabric, file: bytes, s: Snapshot, o: R.Orders, blank: Fabric, boot: Id,
                                order: seq<Id>) {
    && R.SnapshotOf(f, s, o) && S.Serialized(s) == Ok(file)
    && Started(blank) && blank.stores == f.stores
    && S.Deserialized(file).Ok? && R.Recovered(blank, S.Deserialized(file).value, boot, order, g)
  }

  /** Save, decode, recover, run on: a runtime recovered from the file continues the one that wrote it, and every
      placement reads the same until it is evicted. */
  lemma RecoverFromFile(f: Fabric, g: Fabric, h: Hash, file: bytes, s: Snapshot, o: R.Orders, blank: Fabric, boot: Id,
                        order: seq<Id>, ops: seq<Op>)
    requires Steady(f, h) && RecoveredFrom(f, g, file, s, o, blank, boot, order)
    requires Y.Typed(S.SnapshotData(s), S.SNAPSHOT) && InOrder(f)
    requires Steady(g, h) ==> AllowedRun(g, h, ops)
    ensures Continues(f, g, h) && (Durable(f) ==> Durable(g) && (NeverLost(f) ==> NeverLost(g)))
    ensures Steady(g, h) && Continues(f, Run(g, h, ops), h)
    ensures var end := Run(g, h, ops);
      forall id, faults :: id in f.placements && id in end.placements && Live(end.placements[id]) ==>
        ReadById(end, id, faults) == ReadById(f, id, faults)
  {
    hide Steady, Continues, Durable, NeverLost, Run, AllowedRun, InOrder, ReadById, Started, R.SnapshotOf,
      R.Recovered, Y.Typed, S.SnapshotData, S.MapsOrdered, S.Serialized, S.Deserialized, Exact, R.InUse;
    SavedMaps(f, s, o);
    S.AcceptedIsSaved(s);
    RestartContinues(f, g, h, blank, s, o, boot, order);
    RestartThenRun(f, g, h, blank, s, o, boot, order, ops);
    if Durable(f) {
      RestartDurable(f, g, h, blank, s, o, boot, order);
    }
  }
}
