/** Whole runs of the runtime: any sequence of operations, each with any backend calls failing. */
module Runs {
  import opened Bytes
  import opened Status
  import opened Model
  import opened BlobStore
  import opened Runtime
  import opened Effects
  import opened Safety
  import opened Conservation
  import opened Durability
  import opened ReadBack
  import L = Ledger

  datatype Op =
    | OpDefine(kind: Enum, size: nat, content: bytes, writer: Authority, minReplicas: nat, priority: Enum)
    | OpPublish(obj: Object, content: bytes, backend: Id, opts: Options, faults: Faults)
    | OpReplicate(source: Placement, target: Id, opts: Options, readFaults: Faults, faults: Faults)
    | OpMove(source: Placement, target: Id, opts: Options, readFaults: Faults, faults: Faults)
    | OpEvict(placement: Id, faults: Faults)
    | OpAuthority(authority: Authority)
    | OpRegister(desc: Backend, tier: Tier)

  /** Backends are registered with everything an operation looks up, and catalog entries know their object's id. */
  ghost predicate Wired(f: Fabric) {
    && (forall b <- f.stores :: Registered(f, b))
    && Keyed(f.catalog)
  }

  /** What the operations keep in any runtime, also one that was recovered. */
  ghost predicate Steady(f: Fabric, h: Hash) {
    Safe(f, h) && Wired(f)
  }

  /** What they keep besides while nothing is recovered: the accounts and the counters. */
  ghost predicate Tallied(f: Fabric) {
    Conserved(f) && Ahead(f)
  }

  ghost predicate Sound(f: Fabric, h: Hash) {
    Steady(f, h) && Durable(f) && Tallied(f)
  }

  /** Publications verify what they wrote and name catalogued objects, an evicted placement is not moved, and
      backends are registered once, unused. */
  ghost predicate Allowed(f: Fabric, op: Op) {
    match op
    case OpDefine(_, _, content, _, _, _) => |content| < TWO_64
    case OpPublish(obj, _, _, opts, _) => opts.eagerVerify && obj.id in f.catalog
    case OpReplicate(_, _, opts, _, _) => opts.eagerVerify
    case OpMove(source, _, opts, _, _) => opts.eagerVerify && (source.id in f.placements ==> Live(f.placements[source.id]))
    case OpRegister(desc, _) => desc.id !in f.stores && desc.capacity.reserved == 0 && desc.capacity.committed == 0
    case _ => true
  }

  ghost function Step(f: Fabric, h: Hash, op: Op): Fabric
    requires Wired(f) && Allowed(f, op)
  {
    match op
    case OpDefine(kind, size, content, writer, minReplicas, priority) =>
      DefineObject(f, h, kind, size, content, writer, minReplicas, priority).1
    case OpPublish(obj, content, backend, opts, faults) => Publish(f, h, obj, content, backend, opts, faults).1
    case OpReplicate(source, target, opts, readFaults, faults) => Replicate(f, h, source, target, opts, readFaults, faults).1
    case OpMove(source, target, opts, readFaults, faults) => Move(f, h, source, target, opts, readFaults, faults).1
    case OpEvict(id, faults) => Evict(f, id, faults).1
    case OpAuthority(a) => f.(authority := a)
    case OpRegister(desc, tier) => RegisterBackend(f, desc, tier)
  }

  // ----- One step -----

  /** What a step leaves a reader and the catalog. */
  ghost predicate Continues(f: Fabric, g: Fabric, h: Hash) {
    Steady(g, h) && Preserves(f, g) && SameObjects(f, g)
  }

  lemma RegisteredTarget(f: Fabric, target: Id)
    requires Wired(f)
    ensures target in f.stores ==> Registered(f, target)
  {}

  lemma PublishWired(f: Fabric, h: Hash, obj: Object, content: bytes, backend: Id, opts: Options, faults: Faults)
    requires Wired(f) && obj.id in f.catalog
    ensures var g := Publish(f, h, obj, content, backend, opts, faults).1; Wired(g) && SameObjects(f, g)
  {
    hide Publish, Chunking, VerifyFrom, BuiltManifest, NewReplica;
    PublishEffect(f, h, obj, content, backend, opts, faults);
  }

  lemma PublishSteady(f: Fabric, h: Hash, obj: Object, content: bytes, backend: Id, opts: Options, faults: Faults)
    requires Steady(f, h) && opts.eagerVerify && obj.id in f.catalog
    ensures var (r, g) := Publish(f, h, obj, content, backend, opts, faults);
      Continues(f, g, h) && (r.Ok? && Exact(f) ==> Exact(g))
  {
    hide Publish, Safe, Exact, Preserves, SameObjects, Wired;
    RegisteredTarget(f, backend);
    PublishKeeps(f, h, obj, content, backend, opts, faults);
    PublishPreserves(f, h, obj, content, backend, opts, faults);
    PublishWired(f, h, obj, content, backend, opts, faults);
  }

  /** Earlier placements and manifests stay. */
  lemma PublishKeepsOthers(f: Fabric, h: Hash, obj: Object, content: bytes, backend: Id, opts: Options, faults: Faults)
    requires (backend in f.stores ==> Registered(f, backend)) && obj.id in f.catalog
    ensures var g := Publish(f, h, obj, content, backend, opts, faults).1;
      && (forall id <- f.placements :: id in g.placements && g.placements[id] == f.placements[id])
      && (forall m <- f.manifests :: m in g.manifests && g.manifests[m] == f.manifests[m])
  {
    hide Publish, Chunking, VerifyFrom, BuiltManifest, WithPlacement;
    PublishEffect(f, h, obj, content, backend, opts, faults);
  }

  /** replicate publishes the catalogued descriptor, or changes nothing. */
  lemma ReplicatePublishes(f: Fabric, h: Hash, source: Placement, target: Id, opts: Options, readFaults: Faults, faults: Faults)
    returns (o: Options, data: bytes)
    requires Wired(f)
    ensures o.eagerVerify == opts.eagerVerify
    ensures var (r, g) := Replicate(f, h, source, target, opts, readFaults, faults);
      || (r.Err? && g == f)
      || (source.obj in f.catalog && f.catalog[source.obj].obj.id == source.obj && source.id in f.placements
          && ReadById(f, source.id, readFaults) == Ok(data)
          && (r, g) == Publish(f, h, f.catalog[source.obj].obj, data, target, o, faults))
  {
    hide Publish, ReadPlacement;
    o := if opts.required == 0 then opts.(required := source.durabilityReplicas) else opts;
    data := if ReadById(f, source.id, readFaults).Ok? then ReadById(f, source.id, readFaults).value else [];
  }

  lemma Unchanged(f: Fabric, h: Hash)
    requires Safe(f, h)
    ensures Preserves(f, f) && SameObjects(f, f)
  {
    hide Safe;
    BackedManifests(f, h);
  }

  lemma ReplicateSteady(f: Fabric, h: Hash, source: Placement, target: Id, opts: Options, readFaults: Faults, faults: Faults)
    requires Steady(f, h) && opts.eagerVerify
    ensures var (r, g) := Replicate(f, h, source, target, opts, readFaults, faults);
      Continues(f, g, h) && (r.Ok? && Exact(f) ==> Exact(g))
      && (r.Ok? ==> source.id in f.placements && source.id in g.placements && g.placements[source.id] == f.placements[source.id])
  {
    hide Replicate, Publish, Safe, Exact, Preserves, SameObjects, ReadById, Wired;
    RegisteredTarget(f, target);
    var o, data := ReplicatePublishes(f, h, source, target, opts, readFaults, faults);
    Unchanged(f, h);
    var (r, g) := Replicate(f, h, source, target, opts, readFaults, faults);
    if !(r.Err? && g == f) {
      PublishSteady(f, h, f.catalog[source.obj].obj, data, target, o, faults);
      PublishKeepsOthers(f, h, f.catalog[source.obj].obj, data, target, o, faults);
    }
  }

  lemma MoveSteady(f: Fabric, h: Hash, source: Placement, target: Id, opts: Options, readFaults: Faults, faults: Faults)
    requires Steady(f, h) && opts.eagerVerify && (source.id in f.placements ==> Live(f.placements[source.id]))
    ensures var (r, g) := Move(f, h, source, target, opts, readFaults, faults);
      Continues(f, g, h) && (r.Ok? && Exact(f) ==> Exact(g))
  {
    hide Replicate, Safe, Exact, Preserves;
    RegisteredTarget(f, target);
    ReplicateSteady(f, h, source, target, opts, readFaults, faults);
    var (r, k) := Replicate(f, h, source, target, opts, readFaults, faults);
    if r.Ok? {
      DemoteKeeps(k, h, source.id);
      DemotePreserves(k, h, source.id);
      PreservesTransitive(f, k, Demoted(k, source.id));
    }
  }

  lemma EvictWired(f: Fabric, id: Id, faults: Faults)
    requires Wired(f)
    ensures var g := Evict(f, id, faults).1; Wired(g) && SameObjects(f, g)
  {
    hide Evicted, EvictedEntry;
    if Evict(f, id, faults).0.Pass? {
      var p := f.placements[id];
      EvictedShape(f, id, faults);
      EvictedEntryKeeps(f.catalog[p.obj], p.replica);
      var g := Evicted(f, id, faults);
      forall b | b in g.stores
        ensures Registered(g, b)
      {
        assert Registered(f, b);
      }
    }
  }

  lemma EvictSteady(f: Fabric, h: Hash, id: Id, faults: Faults)
    requires Steady(f, h)
    ensures var g := Evict(f, id, faults).1; Continues(f, g, h) && (Exact(f) ==> Exact(g))
  {
    hide Evict, Safe, Exact, Preserves, SameObjects, Wired;
    EvictKeeps(f, h, id, faults);
    EvictPreserves(f, h, id, faults);
    EvictWired(f, id, faults);
  }

  lemma RegisterSteady(f: Fabric, h: Hash, desc: Backend, tier: Tier)
    requires Steady(f, h) && desc.id !in f.stores
    ensures var g := RegisterBackend(f, desc, tier); Continues(f, g, h) && (Exact(f) ==> Exact(g))
  {
    hide Safe, Preserves, Uses;
    Safety.RegisterKeeps(f, h, desc, tier);
    RegisterPreserves(f, h, desc, tier);
    var g := RegisterBackend(f, desc, tier);
    forall b | b in g.stores
      ensures Registered(g, b)
    {
      assert b == desc.id || Registered(f, b);
    }
  }

  lemma SameParts(f: Fabric, g: Fabric, h: Hash)
    requires f.blobs == g.blobs && f.stores == g.stores && f.placements == g.placements && f.manifests == g.manifests
    ensures (Safe(f, h) <==> Safe(g, h)) && (Exact(f) <==> Exact(g))
  {}

  /** define_object adds at most an entry that was not there. */
  lemma DefineShape(f: Fabric, h: Hash, kind: Enum, size: nat, content: bytes, writer: Authority, minReplicas: nat, priority: Enum)
    requires |content| < TWO_64
    ensures var g := DefineObject(f, h, kind, size, content, writer, minReplicas, priority).1;
      && g == f.(ids := g.ids, catalog := g.catalog)
      && (g.catalog == f.catalog
          || (f.ids.obj !in f.catalog && f.ids.obj in g.catalog && g.catalog[f.ids.obj].obj.id == f.ids.obj
              && g.catalog[f.ids.obj].replicaSet.obj == f.ids.obj
              && g.catalog == f.catalog[f.ids.obj := g.catalog[f.ids.obj]]))
  {
    hide RunnerText;
  }

  lemma DefineWired(f: Fabric, h: Hash, kind: Enum, size: nat, content: bytes, writer: Authority, minReplicas: nat, priority: Enum)
    requires Wired(f) && |content| < TWO_64
    ensures var g := DefineObject(f, h, kind, size, content, writer, minReplicas, priority).1;
      g == f.(ids := g.ids, catalog := g.catalog) && Wired(g) && SameObjects(f, g)
  {
    hide DefineObject, Registered;
    DefineShape(f, h, kind, size, content, writer, minReplicas, priority);
    var g := DefineObject(f, h, kind, size, content, writer, minReplicas, priority).1;
    forall b | b in g.stores
      ensures Registered(g, b)
    {
      SameRegistered(f, g, b);
    }
  }

  lemma SameRegistered(f: Fabric, g: Fabric, b: Id)
    requires g.stores == f.stores && g.descriptors == f.descriptors && g.tiers == f.tiers
    ensures Registered(f, b) <==> Registered(g, b)
  {}

  lemma DefineSteady(f: Fabric, h: Hash, kind: Enum, size: nat, content: bytes, writer: Authority, minReplicas: nat, priority: Enum)
    requires Steady(f, h) && |content| < TWO_64
    ensures var g := DefineObject(f, h, kind, size, content, writer, minReplicas, priority).1;
      Continues(f, g, h) && (Exact(f) ==> Exact(g))
  {
    hide DefineObject, Safe, Preserves, SameObjects, Exact, Wired;
    DefineWired(f, h, kind, size, content, writer, minReplicas, priority);
    SameParts(f, DefineObject(f, h, kind, size, content, writer, minReplicas, priority).1, h);
    DefinePreserves(f, h, kind, size, content, writer, minReplicas, priority);
  }

  lemma AuthoritySteady(f: Fabric, h: Hash, a: Authority)
    requires Steady(f, h)
    ensures var g := f.(authority := a); Continues(f, g, h) && (Exact(f) ==> Exact(g))
  {
    hide Parts, Exact;
    SameParts(f, f.(authority := a), h);
    Unchanged(f, h);
  }

  /** The publication in a step went through, if it had one. */
  ghost predicate Completed(f: Fabric, h: Hash, op: Op)
    requires Wired(f) && Allowed(f, op)
  {
    match op
    case OpPublish(obj, content, backend, opts, faults) => Publish(f, h, obj, content, backend, opts, faults).0.Ok?
    case OpReplicate(source, target, opts, readFaults, faults) =>
      Replicate(f, h, source, target, opts, readFaults, faults).0.Ok?
    case OpMove(source, target, opts, readFaults, faults) => Move(f, h, source, target, opts, readFaults, faults).0.Ok?
    case _ => true
  }

  /** Every operation keeps blob safety and every byte still placed; the reference counts stay exact when its
      publication, if any, goes through. */
  lemma StepSteady(f: Fabric, h: Hash, op: Op)
    requires Steady(f, h) && Allowed(f, op)
    ensures Continues(f, Step(f, h, op), h) && (Completed(f, h, op) && Exact(f) ==> Exact(Step(f, h, op)))
  {
    hide Safe, Wired, Continues, Exact, Publish, Replicate, Move, Evict, RegisterBackend, DefineObject;
    assert Wired(f);
    match op
    case OpDefine(kind, size, content, writer, minReplicas, priority) =>
      DefineSteady(f, h, kind, size, content, writer, minReplicas, priority);
    case OpPublish(obj, content, backend, opts, faults) =>
      PublishSteady(f, h, obj, content, backend, opts, faults);
    case OpReplicate(source, target, opts, readFaults, faults) =>
      ReplicateSteady(f, h, source, target, opts, readFaults, faults);
    case OpMove(source, target, opts, readFaults, faults) =>
      MoveSteady(f, h, source, target, opts, readFaults, faults);
    case OpEvict(id, faults) => EvictSteady(f, h, id, faults);
    case OpAuthority(a) => AuthoritySteady(f, h, a);
    case OpRegister(desc, tier) => RegisterSteady(f, h, desc, tier);
  }

  // ----- Durability, step by step -----

  lemma ReplicateDurable(f: Fabric, h: Hash, source: Placement, target: Id, opts: Options, readFaults: Faults, faults: Faults)
    requires Wired(f) && Durable(f)
    ensures Durable(Replicate(f, h, source, target, opts, readFaults, faults).1)
  {
    hide Replicate, Publish, ReadById, Durable, Wired;
    RegisteredTarget(f, target);
    var o, data := ReplicatePublishes(f, h, source, target, opts, readFaults, faults);
    var (r, g) := Replicate(f, h, source, target, opts, readFaults, faults);
    if !(r.Err? && g == f) {
      PublishDurable(f, h, f.catalog[source.obj].obj, data, target, o, faults);
    }
  }

  lemma MoveDurable(f: Fabric, h: Hash, source: Placement, target: Id, opts: Options, readFaults: Faults, faults: Faults)
    requires Steady(f, h) && Durable(f) && opts.eagerVerify
    requires source.id in f.placements ==> Live(f.placements[source.id])
    ensures Durable(Move(f, h, source, target, opts, readFaults, faults).1)
  {
    hide Replicate, Safe, Wired, Durable, Exact, Continues;
    assert Wired(f);
    RegisteredTarget(f, target);
    ReplicateSteady(f, h, source, target, opts, readFaults, faults);
    ReplicateDurable(f, h, source, target, opts, readFaults, faults);
    var (r, k) := Replicate(f, h, source, target, opts, readFaults, faults);
    if r.Ok? {
      DemoteDurable(k, source.id);
    }
  }

  lemma SameDurable(f: Fabric, g: Fabric)
    requires Durable(f) && g.catalog == f.catalog && g.placements == f.placements && g.ids == f.ids
    ensures Durable(g)
  {
    hide Listed, Cached;
  }

  /** Every operation keeps replica sets in step with the placements, in a recovered runtime too. */
  lemma StepDurable(f: Fabric, h: Hash, op: Op)
    requires Steady(f, h) && Durable(f) && Allowed(f, op)
    ensures Durable(Step(f, h, op))
  {
    hide Safe, Wired, Durable, Publish, Replicate, Move, Evict, DefineObject;
    assert Wired(f);
    match op
    case OpDefine(kind, size, content, writer, minReplicas, priority) =>
      DefineDurable(f, h, kind, size, content, writer, minReplicas, priority);
    case OpPublish(obj, content, backend, opts, faults) =>
      RegisteredTarget(f, backend);
      PublishDurable(f, h, obj, content, backend, opts, faults);
    case OpReplicate(source, target, opts, readFaults, faults) =>
      ReplicateDurable(f, h, source, target, opts, readFaults, faults);
    case OpMove(source, target, opts, readFaults, faults) =>
      MoveDurable(f, h, source, target, opts, readFaults, faults);
    case OpEvict(id, faults) => EvictDurable(f, id, faults);
    case OpAuthority(a) => SameDurable(f, Step(f, h, op));
    case OpRegister(desc, tier) => SameDurable(f, Step(f, h, op));
  }

  // ----- Accounts and counters, step by step -----

  lemma PublishTallied(f: Fabric, h: Hash, obj: Object, content: bytes, backend: Id, opts: Options, faults: Faults)
    requires Tallied(f) && (backend in f.stores ==> Registered(f, backend)) && obj.id in f.catalog
    ensures Tallied(Publish(f, h, obj, content, backend, opts, faults).1)
  {
    hide Publish, Conserved, Ahead;
    PublishConserves(f, h, obj, content, backend, opts, faults);
    PublishAhead(f, h, obj, content, backend, opts, faults);
  }

  lemma ReplicateTallied(f: Fabric, h: Hash, source: Placement, target: Id, opts: Options, readFaults: Faults, faults: Faults)
    requires Tallied(f) && Wired(f)
    ensures Tallied(Replicate(f, h, source, target, opts, readFaults, faults).1)
  {
    hide Replicate, Publish, ReadById, Tallied, Wired;
    RegisteredTarget(f, target);
    var o, data := ReplicatePublishes(f, h, source, target, opts, readFaults, faults);
    var (r, g) := Replicate(f, h, source, target, opts, readFaults, faults);
    if !(r.Err? && g == f) {
      PublishTallied(f, h, f.catalog[source.obj].obj, data, target, o, faults);
    }
  }

  lemma MoveTallied(f: Fabric, h: Hash, source: Placement, target: Id, opts: Options, readFaults: Faults, faults: Faults)
    requires Tallied(f) && Steady(f, h) && opts.eagerVerify
    requires source.id in f.placements ==> Live(f.placements[source.id])
    ensures Tallied(Move(f, h, source, target, opts, readFaults, faults).1)
  {
    hide Replicate, Safe, Wired, Conserved, Exact, Continues;
    assert Wired(f);
    RegisteredTarget(f, target);
    ReplicateSteady(f, h, source, target, opts, readFaults, faults);
    ReplicateTallied(f, h, source, target, opts, readFaults, faults);
    var (r, k) := Replicate(f, h, source, target, opts, readFaults, faults);
    if r.Ok? {
      DemoteConserves(k, source.id);
    }
  }

  lemma DefineTallied(f: Fabric, h: Hash, kind: Enum, size: nat, content: bytes, writer: Authority, minReplicas: nat,
                      priority: Enum)
    requires Tallied(f) && |content| < TWO_64
    ensures Tallied(DefineObject(f, h, kind, size, content, writer, minReplicas, priority).1)
  {
    hide DefineObject, Conserved, Ahead;
    DefineConserves(f, h, kind, size, content, writer, minReplicas, priority);
    DefineAhead(f, h, kind, size, content, writer, minReplicas, priority);
  }

  lemma SameTallied(f: Fabric, g: Fabric)
    requires Tallied(f) && g.catalog == f.catalog && g.placements == f.placements && g.manifests == f.manifests
    requires g.ids == f.ids && Conserved(g)
    ensures Tallied(g)
  {
    hide Conserved;
  }

  lemma AuthorityConserves(f: Fabric, a: Authority)
    requires Conserved(f)
    ensures Conserved(f.(authority := a))
  {
    hide L.Balanced, Occupied;
  }

  /** Every operation keeps the accounts in step with the placements and the counters ahead of all ids. */
  lemma StepTallied(f: Fabric, h: Hash, op: Op)
    requires Steady(f, h) && Tallied(f) && Allowed(f, op)
    ensures Tallied(Step(f, h, op))
  {
    hide Safe, Wired, Conserved, Ahead, Publish, Replicate, Move, Evict, DefineObject;
    assert Wired(f);
    match op
    case OpDefine(kind, size, content, writer, minReplicas, priority) =>
      DefineTallied(f, h, kind, size, content, writer, minReplicas, priority);
    case OpPublish(obj, content, backend, opts, faults) =>
      RegisteredTarget(f, backend);
      PublishTallied(f, h, obj, content, backend, opts, faults);
    case OpReplicate(source, target, opts, readFaults, faults) =>
      ReplicateTallied(f, h, source, target, opts, readFaults, faults);
    case OpMove(source, target, opts, readFaults, faults) =>
      MoveTallied(f, h, source, target, opts, readFaults, faults);
    case OpEvict(id, faults) =>
      EvictConserves(f, id, faults);
      EvictAhead(f, id, faults);
    case OpAuthority(a) =>
      AuthorityConserves(f, a);
      SameTallied(f, Step(f, h, op));
    case OpRegister(desc, tier) =>
      RegisterConserves(f, desc, tier);
      SameTallied(f, Step(f, h, op));
  }

  /** Every operation keeps all of it. */
  lemma StepSound(f: Fabric, h: Hash, op: Op)
    requires Sound(f, h) && Allowed(f, op)
    ensures Sound(Step(f, h, op), h)
  {
    hide Safe, Wired, Tallied, Durable, Preserves, SameObjects, Exact, Step, Allowed;
    StepSteady(f, h, op);
    StepDurable(f, h, op);
    StepTallied(f, h, op);
  }

  lemma EmptySound(h: Hash)
    ensures Sound(EmptyFabric(), h) && Exact(EmptyFabric())
  {
    EmptySafe(h);
    EmptyConserved();
  }

  // ----- Runs -----

  ghost predicate AllowedRun(f: Fabric, h: Hash, ops: seq<Op>)
    requires Steady(f, h)
    decreases |ops|
  {
    ops == [] || (Allowed(f, ops[0]) && (StepSteady(f, h, ops[0]); AllowedRun(Step(f, h, ops[0]), h, ops[1..])))
  }

  /** The state after a run. */
  ghost function Run(f: Fabric, h: Hash, ops: seq<Op>): (g: Fabric)
    requires Steady(f, h) && AllowedRun(f, h, ops)
    ensures Steady(g, h)
    decreases |ops|
  {
    hide Safe, Wired, Preserves, SameObjects, Allowed, Step, Exact, Completed;
    if ops == [] then f
    else
      StepSteady(f, h, ops[0]);
      Run(Step(f, h, ops[0]), h, ops[1..])
  }

  lemma {:induction false} RunAppend(f: Fabric, h: Hash, ops: seq<Op>, op: Op)
    requires Steady(f, h) && AllowedRun(f, h, ops) && Allowed(Run(f, h, ops), op)
    ensures AllowedRun(f, h, ops + [op]) && Run(f, h, ops + [op]) == Step(Run(f, h, ops), h, op)
    decreases |ops|
  {
    hide Safe, Wired, Allowed, Step, Preserves, SameObjects, Exact, Completed;
    StepSteady(Run(f, h, ops), h, op);
    if ops == [] {
      assert ops + [op] == [op] && [op][1..] == [];
    } else {
      assert (ops + [op])[0] == ops[0] && (ops + [op])[1..] == ops[1..] + [op];
      StepSteady(f, h, ops[0]);
      RunAppend(Step(f, h, ops[0]), h, ops[1..], op);
    }
  }

  /** Some run from an empty runtime ends in f. */
  ghost predicate Reachable(f: Fabric, h: Hash) {
    Steady(EmptyFabric(), h) && exists ops :: AllowedRun(EmptyFabric(), h, ops) && Run(EmptyFabric(), h, ops) == f
  }

  lemma ReachableStep(f: Fabric, h: Hash, op: Op)
    requires Reachable(f, h) && Allowed(f, op)
    ensures Steady(f, h) && Reachable(Step(f, h, op), h)
  {
    hide Safe, Wired, Allowed, Step, Run, AllowedRun;
    var ops :| AllowedRun(EmptyFabric(), h, ops) && Run(EmptyFabric(), h, ops) == f;
    RunAppend(EmptyFabric(), h, ops, op);
  }

  lemma {:induction false} RunSound(f: Fabric, h: Hash, ops: seq<Op>)
    requires Sound(f, h) && AllowedRun(f, h, ops)
    ensures Sound(Run(f, h, ops), h)
    decreases |ops|
  {
    hide Safe, Wired, Tallied, Durable, Allowed, Step;
    if ops != [] {
      StepSound(f, h, ops[0]);
      RunSound(Step(f, h, ops[0]), h, ops[1..]);
    }
  }

  /** Blob safety, conservation and durability hold in every reachable state. */
  lemma ReachableSound(f: Fabric, h: Hash)
    requires Reachable(f, h)
    ensures Sound(f, h)
  {
    hide Safe, Wired, Tallied, Durable, Exact, Run, AllowedRun;
    var ops :| AllowedRun(EmptyFabric(), h, ops) && Run(EmptyFabric(), h, ops) == f;
    EmptySound(h);
    RunSound(EmptyFabric(), h, ops);
  }

  lemma EmptyReachable(h: Hash)
    ensures Reachable(EmptyFabric(), h)
  {
    hide Safe, Wired, Tallied, Durable, Exact;
    EmptySound(h);
    assert Run(EmptyFabric(), h, []) == EmptyFabric();
  }

  ghost predicate CompletedRun(f: Fabric, h: Hash, ops: seq<Op>)
    requires Steady(f, h) && AllowedRun(f, h, ops)
    decreases |ops|
  {
    ops == [] || (Completed(f, h, ops[0]) && (StepSteady(f, h, ops[0]); CompletedRun(Step(f, h, ops[0]), h, ops[1..])))
  }

  /** When every publication went through, no reference is left over. */
  lemma {:induction false} RunExact(f: Fabric, h: Hash, ops: seq<Op>)
    requires Steady(f, h) && AllowedRun(f, h, ops) && CompletedRun(f, h, ops) && Exact(f)
    ensures Exact(Run(f, h, ops))
    decreases |ops|
  {
    hide Safe, Wired, Exact, Allowed, Step, Completed;
    if ops != [] {
      StepSteady(f, h, ops[0]);
      RunExact(Step(f, h, ops[0]), h, ops[1..]);
    }
  }

  lemma {:induction false} RunPreserves(f: Fabric, h: Hash, ops: seq<Op>)
    requires Steady(f, h) && AllowedRun(f, h, ops)
    ensures Preserves(f, Run(f, h, ops)) && SameObjects(f, Run(f, h, ops))
    decreases |ops|
  {
    hide Safe, Wired, Preserves, SameObjects, Allowed, Step, Exact, Completed;
    if ops == [] {
      Unchanged(f, h);
    } else {
      StepSteady(f, h, ops[0]);
      var g := Step(f, h, ops[0]);
      RunPreserves(g, h, ops[1..]);
      PreservesTransitive(f, g, Run(g, h, ops[1..]));
      SameObjectsTransitive(f, g, Run(g, h, ops[1..]));
    }
  }

  lemma SameObjectsTransitive(f: Fabric, g: Fabric, k: Fabric)
    requires SameObjects(f, g) && SameObjects(g, k)
    ensures SameObjects(f, k)
  {}

  /** Read-after-publish: in every later state the placement has been evicted or reads as exactly the bytes
      that were published, and a failing backend can only turn that into an I/O error. */
  lemma ReadAfterPublish(f: Fabric, h: Hash, obj: Object, content: bytes, backend: Id, opts: Options, faults: Faults,
                         ops: seq<Op>, readFaults: Faults)
    requires Steady(f, h) && opts.eagerVerify && obj.id in f.catalog
    requires Publish(f, h, obj, content, backend, opts, faults).0.Ok?
    requires var g := Publish(f, h, obj, content, backend, opts, faults).1;
      backend in g.stores && NoCollision(g.stores[backend], h, content)
      && (Steady(g, h) ==> AllowedRun(g, h, ops))
    ensures var (r, g) := Publish(f, h, obj, content, backend, opts, faults);
      Steady(g, h) &&
      var end := Run(g, h, ops);
      r.value.id in end.placements && (Live(end.placements[r.value.id]) ==>
        ReadById(end, r.value.id, NO_FAULTS) == Ok(content)
        && (ReadById(end, r.value.id, readFaults) == Ok(content) || ReadById(end, r.value.id, readFaults) == Err(IoError)))
  {
    hide Publish, Run, AllowedRun, Safe, ReadById, NoCollision, Chunking, VerifyFrom, BuiltManifest, WithPlacement,
      SameRecord, SameBytes;
    RegisteredTarget(f, backend);
    PublishSteady(f, h, obj, content, backend, opts, faults);
    PublishEffect(f, h, obj, content, backend, opts, faults);
    var (r, g) := Publish(f, h, obj, content, backend, opts, faults);
    PublishReads(f, g, h, obj, content, backend, opts, faults, r.value);
    RunPreserves(g, h, ops);
    var end := Run(g, h, ops);
    if Live(end.placements[r.value.id]) {
      SameRead(g, end, r.value.id, NO_FAULTS);
      FaultyRead(end, r.value.id, readFaults);
    }
  }

  /** The copy replicate makes reads as the source did. */
  lemma ReplicateReads(f: Fabric, h: Hash, source: Placement, target: Id, opts: Options, readFaults: Faults, faults: Faults)
    requires Steady(f, h) && opts.eagerVerify && Replicate(f, h, source, target, opts, readFaults, faults).0.Ok?
    requires var g := Replicate(f, h, source, target, opts, readFaults, faults).1;
      target in g.stores && forall data :: ReadById(f, source.id, readFaults) == Ok(data) ==> NoCollision(g.stores[target], h, data)
    ensures var (r, g) := Replicate(f, h, source, target, opts, readFaults, faults);
      ReadById(g, r.value.id, NO_FAULTS) == ReadById(f, source.id, readFaults)
  {
    hide Replicate, Publish, Safe, ReadById, NoCollision, Chunking, VerifyFrom, BuiltManifest, WithPlacement;
    RegisteredTarget(f, target);
    var o, data := ReplicatePublishes(f, h, source, target, opts, readFaults, faults);
    var (r, g) := Replicate(f, h, source, target, opts, readFaults, faults);
    PublishEffect(f, h, f.catalog[source.obj].obj, data, target, o, faults);
    PublishReads(f, g, h, f.catalog[source.obj].obj, data, target, o, faults, r.value);
  }

  /** And in every later state the copy has been evicted or still reads so. */
  lemma ReadAfterReplicate(f: Fabric, h: Hash, source: Placement, target: Id, opts: Options, readFaults: Faults, faults: Faults,
                           ops: seq<Op>, laterFaults: Faults)
    requires Steady(f, h) && opts.eagerVerify && Replicate(f, h, source, target, opts, readFaults, faults).0.Ok?
    requires var g := Replicate(f, h, source, target, opts, readFaults, faults).1;
      target in g.stores && (forall data :: ReadById(f, source.id, readFaults) == Ok(data) ==> NoCollision(g.stores[target], h, data))
      && (Steady(g, h) ==> AllowedRun(g, h, ops))
    ensures var (r, g) := Replicate(f, h, source, target, opts, readFaults, faults);
      Steady(g, h) &&
      var end := Run(g, h, ops);
      r.value.id in end.placements && (Live(end.placements[r.value.id]) ==>
        ReadById(end, r.value.id, NO_FAULTS) == ReadById(f, source.id, readFaults)
        && (ReadById(end, r.value.id, laterFaults) == ReadById(f, source.id, readFaults)
            || ReadById(end, r.value.id, laterFaults) == Err(IoError)))
  {
    hide Replicate, Run, AllowedRun, Safe, Wired, ReadById, NoCollision, SameRecord, SameBytes;
    assert Wired(f);
    RegisteredTarget(f, target);
    ReplicateSteady(f, h, source, target, opts, readFaults, faults);
    ReplicateReads(f, h, source, target, opts, readFaults, faults);
    ReplicateAdds(f, h, source, target, opts, readFaults, faults);
    var (r, g) := Replicate(f, h, source, target, opts, readFaults, faults);
    RunPreserves(g, h, ops);
    var end := Run(g, h, ops);
    if Live(end.placements[r.value.id]) {
      SameRead(g, end, r.value.id, NO_FAULTS);
      FaultyRead(end, r.value.id, laterFaults);
    }
  }

  lemma ReplicateAdds(f: Fabric, h: Hash, source: Placement, target: Id, opts: Options, readFaults: Faults, faults: Faults)
    requires Wired(f) && Replicate(f, h, source, target, opts, readFaults, faults).0.Ok?
    ensures var (r, g) := Replicate(f, h, source, target, opts, readFaults, faults);
      && r.value.id !in f.placements && g.placements == f.placements[r.value.id := r.value]
      && r.value.lifecycle == AVAILABLE && source.id in f.placements && ReadById(f, source.id, readFaults).Ok?
      && |ReadById(f, source.id, readFaults).value| > 0
      && (forall m <- f.manifests :: m in g.manifests && g.manifests[m] == f.manifests[m])
  {
    hide Replicate, Publish, ReadById, Chunking, VerifyFrom, BuiltManifest, WithPlacement, Wired;
    RegisteredTarget(f, target);
    var o, data := ReplicatePublishes(f, h, source, target, opts, readFaults, faults);
    PublishEffect(f, h, f.catalog[source.obj].obj, data, target, o, faults);
  }

  lemma FaultyRead(f: Fabric, id: Id, faults: Faults)
    requires ReadById(f, id, NO_FAULTS).Ok?
    ensures ReadById(f, id, faults) == ReadById(f, id, NO_FAULTS) || ReadById(f, id, faults) == Err(IoError)
  {
    hide ReadFrom;
    var p := f.placements[id];
    ReadFaults(f.stores[p.backend], f.manifests[p.manifest].chunks, 0, faults);
  }

  // ----- What a move may start from -----

  /** A move that goes through keeps blob safety exactly when its source was not evicted, or its blobs are still there
      with references to spare. While counts are exact there are none. */
  lemma MoveSafeIff(f: Fabric, h: Hash, source: Placement, target: Id, opts: Options, readFaults: Faults, faults: Faults)
    requires Steady(f, h) && opts.eagerVerify && (target in f.stores ==> Registered(f, target))
    requires Move(f, h, source, target, opts, readFaults, faults).0.Ok?
    ensures source.id in f.placements && f.placements[source.id].manifest in f.manifests
    ensures Safe(Move(f, h, source, target, opts, readFaults, faults).1, h) <==>
      Live(f.placements[source.id]) || Spare(f, h, source.id)
    ensures Exact(f) ==> !Spare(f, h, source.id)
  {
    hide Replicate, Safe, Wired, Exact, Preserves, SameObjects, ReadById, Spare;
    assert Wired(f);
    ReplicateSteady(f, h, source, target, opts, readFaults, faults);
    ReplicateAdds(f, h, source, target, opts, readFaults, faults);
    ReadHasChunks(f, source.id, readFaults);
    ReplicateSpares(f, h, source, target, opts, readFaults, faults);
    DemoteSafeIff(Replicate(f, h, source, target, opts, readFaults, faults).1, h, source.id);
    if Exact(f) {
      ExactSparesNone(f, h, source.id);
    }
  }

  lemma ReplicateSpares(f: Fabric, h: Hash, source: Placement, target: Id, opts: Options, readFaults: Faults, faults: Faults)
    requires Steady(f, h) && source.id in f.placements && f.placements[source.id].manifest in f.manifests
    requires Replicate(f, h, source, target, opts, readFaults, faults).0.Ok?
    ensures var g := Replicate(f, h, source, target, opts, readFaults, faults).1;
      && source.id in g.placements && g.placements[source.id] == f.placements[source.id]
      && f.placements[source.id].manifest in g.manifests && (Spare(g, h, source.id) <==> Spare(f, h, source.id))
  {
    hide Replicate, Publish, Safe, ReadById, Spare, Chunking, VerifyFrom, BuiltManifest, WithPlacement, Wired;
    RegisteredTarget(f, target);
    var o, data := ReplicatePublishes(f, h, source, target, opts, readFaults, faults);
    var (r, g) := Replicate(f, h, source, target, opts, readFaults, faults);
    PublishEffect(f, h, f.catalog[source.obj].obj, data, target, o, faults);
    SpareKept(f, g, h, f.catalog[source.obj].obj, data, target, o, faults, r.value, source.id);
  }

  lemma ReadHasChunks(f: Fabric, id: Id, faults: Faults)
    requires id in f.placements && ReadById(f, id, faults).Ok? && |ReadById(f, id, faults).value| > 0
    ensures f.placements[id].manifest in f.manifests && f.manifests[f.placements[id].manifest].chunks != []
  {}

  // ----- Which placements are demoted -----

  /** Neither AVAILABLE nor evicted. */
  ghost predicate DemotedAt(f: Fabric, id: Id) {
    id in f.placements && Live(f.placements[id]) && f.placements[id].lifecycle != AVAILABLE
  }

  /** Some move of the run went through with this placement as its source. */
  ghost predicate MovedBy(f: Fabric, h: Hash, ops: seq<Op>, id: Id)
    requires Steady(f, h) && AllowedRun(f, h, ops)
    decreases |ops|
  {
    ops != [] && (MovedNow(f, h, ops[0], id)
      || (StepSteady(f, h, ops[0]); MovedBy(Step(f, h, ops[0]), h, ops[1..], id)))
  }

  ghost predicate MovedNow(f: Fabric, h: Hash, op: Op, id: Id)
    requires Wired(f) && Allowed(f, op)
  {
    op.OpMove? && op.source.id == id && Completed(f, h, op)
  }

  lemma StepDemotedIff(f: Fabric, h: Hash, op: Op, id: Id)
    requires Steady(f, h) && Allowed(f, op) && id in Step(f, h, op).placements && Live(Step(f, h, op).placements[id])
    ensures DemotedAt(Step(f, h, op), id) <==> DemotedAt(f, id) || MovedNow(f, h, op, id)
  {
    hide Safe, Publish, Replicate, Evict, RunnerText, Wired;
    assert Wired(f);
    match op
    case OpDefine(kind, size, content, writer, minReplicas, priority) =>
    case OpPublish(obj, content, backend, opts, faults) =>
      RegisteredTarget(f, backend);
      PublishPlacements(f, h, obj, content, backend, opts, faults);
    case OpReplicate(source, target, opts, readFaults, faults) =>
      ReplicatePlacements(f, h, source, target, opts, readFaults, faults);
    case OpMove(source, target, opts, readFaults, faults) =>
      ReplicatePlacements(f, h, source, target, opts, readFaults, faults);
    case OpEvict(placement, faults) => EvictPlacements(f, placement, faults);
    case OpAuthority(a) =>
    case OpRegister(desc, tier) =>
  }

  lemma PublishPlacements(f: Fabric, h: Hash, obj: Object, content: bytes, backend: Id, opts: Options, faults: Faults)
    requires (backend in f.stores ==> Registered(f, backend)) && obj.id in f.catalog
    ensures var (r, g) := Publish(f, h, obj, content, backend, opts, faults);
      if r.Ok? then r.value.lifecycle == AVAILABLE && r.value.id !in f.placements && g.placements == f.placements[r.value.id := r.value]
      else g.placements == f.placements
  {
    hide Publish, Chunking, VerifyFrom, BuiltManifest, WithPlacement;
    PublishEffect(f, h, obj, content, backend, opts, faults);
  }

  lemma ReplicatePlacements(f: Fabric, h: Hash, source: Placement, target: Id, opts: Options, readFaults: Faults, faults: Faults)
    requires Wired(f)
    ensures var (r, g) := Replicate(f, h, source, target, opts, readFaults, faults);
      if r.Ok? then
        r.value.lifecycle == AVAILABLE && r.value.id !in f.placements && g.placements == f.placements[r.value.id := r.value]
        && source.id in f.placements
      else g.placements == f.placements
  {
    hide Replicate, Publish, ReadById, Wired;
    RegisteredTarget(f, target);
    var o, data := ReplicatePublishes(f, h, source, target, opts, readFaults, faults);
    var (r, g) := Replicate(f, h, source, target, opts, readFaults, faults);
    if !(r.Err? && g == f) {
      PublishPlacements(f, h, f.catalog[source.obj].obj, data, target, o, faults);
    }
  }

  lemma EvictPlacements(f: Fabric, id: Id, faults: Faults)
    ensures var (o, g) := Evict(f, id, faults);
      if o.Pass? then id in f.placements && g.placements == f.placements[id := EvictedPlacement(f.placements[id])]
      else g == f
  {
    hide DropAll, BlobsOf, L.RemoveCommitted, EvictedEntry;
  }

  /** In any run, what has neither stayed AVAILABLE nor been evicted is exactly what was moved away or was demoted
      before: with EvictMiscountsIff, the copies evict goes wrong about. */
  lemma {:induction false} RunDemotedIff(f: Fabric, h: Hash, ops: seq<Op>, id: Id)
    requires Steady(f, h) && AllowedRun(f, h, ops)
    requires id in Run(f, h, ops).placements && Live(Run(f, h, ops).placements[id])
    ensures DemotedAt(Run(f, h, ops), id) <==> DemotedAt(f, id) || MovedBy(f, h, ops, id)
    decreases |ops|
  {
    hide Safe, Wired, Allowed, Step, Preserves, SameObjects, DemotedAt, MovedNow;
    if ops != [] {
      StepSteady(f, h, ops[0]);
      var g := Step(f, h, ops[0]);
      RunDemotedIff(g, h, ops[1..], id);
      RunPreserves(g, h, ops[1..]);
      if id in g.placements {
        LiveBefore(g, Run(g, h, ops[1..]), id);
        StepDemotedIff(f, h, ops[0], id);
      } else {
        NotYet(f, h, ops[0], id);
      }
    }
  }

  lemma LiveBefore(f: Fabric, g: Fabric, id: Id)
    requires Preserves(f, g) && id in f.placements && id in g.placements && Live(g.placements[id])
    ensures Live(f.placements[id])
  {}

  lemma Gone(f: Fabric, g: Fabric, id: Id)
    requires Preserves(f, g) && id !in g.placements
    ensures id !in f.placements
  {}

  lemma NotYet(f: Fabric, h: Hash, op: Op, id: Id)
    requires Steady(f, h) && Allowed(f, op) && id !in Step(f, h, op).placements
    ensures !DemotedAt(f, id) && !MovedNow(f, h, op, id) && !DemotedAt(Step(f, h, op), id)
  {
    hide Safe, Wired, Step, Exact, Replicate, SameObjects, Preserves;
    StepSteady(f, h, op);
    Gone(f, Step(f, h, op), id);
    if op.OpMove? && op.source.id == id {
      assert Wired(f);
      ReplicatePlacements(f, h, op.source, op.target, op.opts, op.readFaults, op.faults);
    }
  }

  // ----- The durability floor over runs -----

  /** An object that was ever placed has an AVAILABLE placement. */
  ghost predicate NeverLost(f: Fabric) {
    Unmoved(f) && forall o <- f.catalog :: f.catalog[o].placements != [] ==> AvailablePlacements(f.placements, o) != {}
  }

  lemma PublishNeverLost(f: Fabric, h: Hash, obj: Object, content: bytes, backend: Id, opts: Options, faults: Faults)
    requires NeverLost(f) && (backend in f.stores ==> Registered(f, backend)) && obj.id in f.catalog
    ensures NeverLost(Publish(f, h, obj, content, backend, opts, faults).1)
  {
    hide Publish, Chunking, VerifyFrom, BuiltManifest, NewReplica, Counts;
    PublishEffect(f, h, obj, content, backend, opts, faults);
    var (r, g) := Publish(f, h, obj, content, backend, opts, faults);
    if r.Ok? {
      forall o | o in g.catalog && g.catalog[o].placements != []
        ensures AvailablePlacements(g.placements, o) != {}
      {
        if o == obj.id {
          assert r.value.id in AvailablePlacements(g.placements, o);
        } else {
          MoreAvailable(f, g, o);
        }
      }
    }
  }

  lemma MoreAvailable(f: Fabric, g: Fabric, o: Id)
    requires AvailablePlacements(f.placements, o) != {}
    requires forall id <- f.placements :: id in g.placements && g.placements[id] == f.placements[id]
    ensures AvailablePlacements(g.placements, o) != {}
  {
    var id :| id in AvailablePlacements(f.placements, o);
    assert id in AvailablePlacements(g.placements, o);
  }

  lemma EvictNeverLost(f: Fabric, id: Id, faults: Faults)
    requires Durable(f) && NeverLost(f)
    ensures NeverLost(Evict(f, id, faults).1)
  {
    hide Durable, DropAll, BlobsOf, L.RemoveCommitted, Counts;
    var (r, g) := Evict(f, id, faults);
    if r.Pass? {
      EvictFloor(f, id, faults);
      forall o | o in g.catalog && g.catalog[o].placements != []
        ensures AvailablePlacements(g.placements, o) != {}
      {
        if o != f.placements[id].obj {
          assert AvailablePlacements(g.placements, o) == AvailablePlacements(f.placements, o);
        }
      }
    }
  }

  lemma StepNeverLost(f: Fabric, h: Hash, op: Op)
    requires Steady(f, h) && Durable(f) && Allowed(f, op) && !op.OpMove? && NeverLost(f)
    ensures NeverLost(Step(f, h, op))
  {
    hide Safe, Wired, Durable, Publish, Replicate, Evict, AvailablePlacements, DefineObject, NeverLost;
    assert Wired(f);
    match op
    case OpDefine(kind, size, content, writer, minReplicas, priority) =>
      DefineNeverLost(f, h, kind, size, content, writer, minReplicas, priority);
    case OpPublish(obj, content, backend, opts, faults) =>
      RegisteredTarget(f, backend);
      PublishNeverLost(f, h, obj, content, backend, opts, faults);
    case OpReplicate(source, target, opts, readFaults, faults) =>
      RegisteredTarget(f, target);
      var o, data := ReplicatePublishes(f, h, source, target, opts, readFaults, faults);
      var (r, g) := Replicate(f, h, source, target, opts, readFaults, faults);
      if !(r.Err? && g == f) {
        PublishNeverLost(f, h, f.catalog[source.obj].obj, data, target, o, faults);
      }
    case OpEvict(id, faults) => EvictNeverLost(f, id, faults);
    case OpAuthority(a) => SameNeverLost(f, Step(f, h, op));
    case OpRegister(desc, tier) => SameNeverLost(f, Step(f, h, op));
  }

  lemma SameNeverLost(f: Fabric, g: Fabric)
    requires NeverLost(f) && g.placements == f.placements && g.catalog == f.catalog
    ensures NeverLost(g)
  {}

  lemma DefineNeverLost(f: Fabric, h: Hash, kind: Enum, size: nat, content: bytes, writer: Authority, minReplicas: nat,
                        priority: Enum)
    requires NeverLost(f) && |content| < TWO_64
    ensures NeverLost(DefineObject(f, h, kind, size, content, writer, minReplicas, priority).1)
  {
    hide RunnerText, AvailablePlacements;
  }

  /** In any run, from a recovered runtime too, the replica sets stay in step; and without moves no published object
      loses its last AVAILABLE placement. */
  lemma {:induction false} RunNeverLost(f: Fabric, h: Hash, ops: seq<Op>)
    requires Steady(f, h) && Durable(f) && AllowedRun(f, h, ops)
    ensures Durable(Run(f, h, ops))
    ensures NeverLost(f) && (forall op <- ops :: !op.OpMove?) ==> NeverLost(Run(f, h, ops))
    decreases |ops|
  {
    hide Safe, Wired, Durable, NeverLost, Allowed, Step;
    if ops != [] {
      StepSteady(f, h, ops[0]);
      StepDurable(f, h, ops[0]);
      if NeverLost(f) && !ops[0].OpMove? {
        StepNeverLost(f, h, ops[0]);
      }
      RunNeverLost(Step(f, h, ops[0]), h, ops[1..]);
    }
  }

  // ----- Object reads over runs -----

  /** The source is a live placement of its object, and its bytes are told apart from what the target holds. */
  ghost predicate CopySincere(f: Fabric, h: Hash, source: Placement, target: Id, opts: Options, readFaults: Faults, faults: Faults)
    requires Wired(f)
  {
    && source.id in f.placements && Live(f.placements[source.id]) && f.placements[source.id].obj == source.obj
    && var (r, g) := Replicate(f, h, source, target, opts, readFaults, faults);
       r.Ok? && ReadById(f, source.id, NO_FAULTS).Ok? ==>
         target in g.stores && NoCollision(g.stores[target], h, ReadById(f, source.id, NO_FAULTS).value)
  }

  /** The step publishes bytes with the descriptor's digest, and no blob on the backend shares a digest with
      a different part of them. */
  ghost predicate Sincere(f: Fabric, h: Hash, op: Op)
    requires Wired(f) && Allowed(f, op)
  {
    match op
    case OpPublish(obj, content, backend, opts, faults) =>
      && f.catalog[obj.id].obj == obj && h(content) == obj.digest
      && var (r, g) := Publish(f, h, obj, content, backend, opts, faults);
         r.Ok? ==> backend in g.stores && NoCollision(g.stores[backend], h, content)
    case OpReplicate(source, target, opts, readFaults, faults) =>
      CopySincere(f, h, source, target, opts, readFaults, faults)
    case OpMove(source, target, opts, readFaults, faults) =>
      CopySincere(f, h, source, target, opts, readFaults, faults)
    case _ => true
  }

  lemma HonestPreserved(f: Fabric, g: Fabric, h: Hash)
    requires Honest(f, h) && Preserves(f, g) && SameObjects(f, g)
    requires g.placements.Keys == f.placements.Keys
    ensures Honest(g, h)
  {
    hide Preserves, SameObjects, HonestAt;
    forall id | id in g.placements && Live(g.placements[id])
      ensures HonestAt(g, h, id)
    {
      HonestKept(f, g, h, id);
    }
  }

  lemma ReplicateHonest(f: Fabric, h: Hash, source: Placement, target: Id, opts: Options, readFaults: Faults, faults: Faults)
    requires Steady(f, h) && Honest(f, h) && opts.eagerVerify
    requires CopySincere(f, h, source, target, opts, readFaults, faults)
    ensures Honest(Replicate(f, h, source, target, opts, readFaults, faults).1, h)
  {
    hide Replicate, Publish, Safe, ReadById, NoCollision;
    RegisteredTarget(f, target);
    var o, data := ReplicatePublishes(f, h, source, target, opts, readFaults, faults);
    var (r, g) := Replicate(f, h, source, target, opts, readFaults, faults);
    if !(r.Err? && g == f) {
      assert HonestAt(f, h, source.id);
      FaultyRead(f, source.id, readFaults);
      PublishHonest(f, h, f.catalog[source.obj].obj, data, target, o, faults);
    }
  }

  lemma StepHonest(f: Fabric, h: Hash, op: Op)
    requires Steady(f, h) && Allowed(f, op) && Honest(f, h) && Sincere(f, h, op)
    ensures Honest(Step(f, h, op), h)
  {
    hide Safe, Wired, Publish, Replicate, Evict, DefineObject, Honest, Preserves, SameObjects, Exact;
    assert Wired(f);
    match op
    case OpDefine(kind, size, content, writer, minReplicas, priority) =>
      DefineSteady(f, h, kind, size, content, writer, minReplicas, priority);
      DefineWired(f, h, kind, size, content, writer, minReplicas, priority);
      HonestPreserved(f, Step(f, h, op), h);
    case OpPublish(obj, content, backend, opts, faults) =>
      RegisteredTarget(f, backend);
      PublishHonest(f, h, obj, content, backend, opts, faults);
    case OpReplicate(source, target, opts, readFaults, faults) =>
      ReplicateHonest(f, h, source, target, opts, readFaults, faults);
    case OpMove(source, target, opts, readFaults, faults) =>
      MoveHonest(f, h, source, target, opts, readFaults, faults);
    case OpEvict(id, faults) =>
      EvictSteady(f, h, id, faults);
      EvictSamePlacements(f, id, faults);
      HonestPreserved(f, Step(f, h, op), h);
    case OpAuthority(a) =>
      AuthoritySteady(f, h, a);
      HonestPreserved(f, Step(f, h, op), h);
    case OpRegister(desc, tier) =>
      RegisterSteady(f, h, desc, tier);
      HonestPreserved(f, Step(f, h, op), h);
  }

  lemma EvictSamePlacements(f: Fabric, id: Id, faults: Faults)
    ensures Evict(f, id, faults).1.placements.Keys == f.placements.Keys
  {
    hide DropAll, BlobsOf, L.RemoveCommitted, EvictedEntry;
  }

  lemma MoveHonest(f: Fabric, h: Hash, source: Placement, target: Id, opts: Options, readFaults: Faults, faults: Faults)
    requires Steady(f, h) && Honest(f, h) && opts.eagerVerify
    requires source.id in f.placements ==> Live(f.placements[source.id])
    requires CopySincere(f, h, source, target, opts, readFaults, faults)
    ensures Honest(Move(f, h, source, target, opts, readFaults, faults).1, h)
  {
    hide Safe, Wired, Replicate, Honest, Preserves, Exact, CopySincere;
    RegisteredTarget(f, target);
    assert Wired(f);
    ReplicateHonest(f, h, source, target, opts, readFaults, faults);
    ReplicateSteady(f, h, source, target, opts, readFaults, faults);
    var (r, g) := Replicate(f, h, source, target, opts, readFaults, faults);
    if r.Ok? {
      DemotePreserves(g, h, source.id);
      HonestPreserved(g, Demoted(g, source.id), h);
    }
  }

  ghost predicate SincereRun(f: Fabric, h: Hash, ops: seq<Op>)
    requires Steady(f, h) && AllowedRun(f, h, ops)
    decreases |ops|
  {
    ops == [] || (Sincere(f, h, ops[0]) && (StepSteady(f, h, ops[0]); SincereRun(Step(f, h, ops[0]), h, ops[1..])))
  }

  lemma {:induction false} RunHonest(f: Fabric, h: Hash, ops: seq<Op>)
    requires Steady(f, h) && AllowedRun(f, h, ops) && Honest(f, h) && SincereRun(f, h, ops)
    ensures Honest(Run(f, h, ops), h)
    decreases |ops|
  {
    hide Safe, Wired, Honest, Sincere, Allowed, Step;
    if ops != [] {
      StepSteady(f, h, ops[0]);
      StepHonest(f, h, ops[0]);
      RunHonest(Step(f, h, ops[0]), h, ops[1..]);
    }
  }

  /** After any sincere run: reading an object gives the same bytes whichever AVAILABLE placement is met first,
      and verify says yes of every placement that was not evicted. */
  lemma ObjectReadsAgree(h: Hash, ops: seq<Op>, obj: Id, a: Id, b: Id)
    requires Steady(EmptyFabric(), h) && AllowedRun(EmptyFabric(), h, ops) && SincereRun(EmptyFabric(), h, ops)
    requires var f := Run(EmptyFabric(), h, ops);
      Readable(f, obj, a) && Readable(f, obj, b)
      && forall x, y :: ReadById(f, a, NO_FAULTS) == Ok(x) && ReadById(f, b, NO_FAULTS) == Ok(y) ==> Separates(h, x, y)
    ensures var f := Run(EmptyFabric(), h, ops);
      ReadById(f, a, NO_FAULTS).Ok? && ReadById(f, a, NO_FAULTS) == ReadById(f, b, NO_FAULTS)
      && VerifyPlacement(f, h, a, NO_FAULTS) == Ok(true)
  {
    hide Run, AllowedRun, SincereRun, Steady, ReadById, VerifyPlacement, HonestAt;
    RunHonest(EmptyFabric(), h, ops);
    var f := Run(EmptyFabric(), h, ops);
    ReadsAgree(f, h, obj, a, b);
    VerifyAgrees(f, h, a);
  }
}
