/** tools/storage_fabric_coordinator.cpp: the requests that change the runtime, carried out on it. What the fencing
    of Coordinator says of an abstract authority holds of the runtime's, and this module says which of a request's
    effects it covers. */
module Requests {
  import opened Bytes
  import opened Status
  import opened Model
  import opened AuthorityOrder
  import opened BlobStore
  import opened Runtime
  import opened Effects
  import opened Safety
  import opened Conservation
  import opened Durability
  import opened ReadBack
  import opened Runs
  import C = Coordinator
  import L = Ledger

  const PRIORITY_HIGH: Enum := 1

  /** What the worker sends, with what the request meets: the boot drawn for a connection, and the backend calls
      that fail. */
  datatype Call =
    | CallHello(boot: Id)
    | CallCreate(incoming: Authority, kind: Enum, size: nat, content: bytes, faults: Faults)
    | CallCommit(incoming: Authority)
    | CallLoss(boot: Id)

  datatype Server = Server(fabric: Fabric, backend: Id, liveBoots: seq<Id>, nextDispatch: nat)

  function CreateOptions(incoming: Authority): Options {
    Options(incoming, 1, true, true, 0)
  }

  /** CREATE_OBJECT behind the fence: define, publish, and only then take over the authority. */
  ghost function Created(f: Fabric, h: Hash, backend: Id, incoming: Authority, kind: Enum, size: nat, content: bytes, faults: Faults)
    : (Result<Placement>, Fabric)
    requires |content| < TWO_64 && (backend in f.stores ==> Registered(f, backend))
  {
    hide DefinedObject, Publish;
    if !Newer(incoming, f.authority) then (Err(StaleAuthority), f)
    else
      var (d, g) := DefineObject(f, h, kind, size, content, incoming, 1, PRIORITY_HIGH);
      if d.Err? then (Err(d.code), g)
      else
        var (r, k) := Publish(g, h, d.value, content, backend, CreateOptions(incoming), faults);
        if r.Err? then (r, k) else (r, k.(authority := incoming))
  }

  method CreateObject(sf: StorageFabric, backend: Id, incoming: Authority, kind: Enum, size: nat, content: bytes, faults: Faults)
    returns (r: Result<Placement>)
    requires |content| < TWO_64 && (backend in sf.stores ==> Registered(sf.Abs(), backend))
    modifies sf, sf.reservations
    ensures (r, sf.Abs()) == Created(old(sf.Abs()), sf.digestOf, backend, incoming, kind, size, content, faults)
  {
    hide Publish, DefinedObject;
    if Compare(incoming, sf.authority) <= 0 { return Err(StaleAuthority); }
    var d := sf.Define(kind, size, content, incoming, 1, PRIORITY_HIGH);
    if d.Err? { return Err(d.code); }
    r := sf.PublishTo(d.value, content, backend, CreateOptions(incoming), faults);
    if r.Ok? {
      sf.SetAuthority(incoming);
    }
  }

  // ----- Runs of requests -----

  ghost predicate Servable(s: Server, h: Hash, c: Call) {
    Steady(s.fabric, h) && (c.CallCreate? ==> |c.content| < TWO_64)
  }

  ghost function Reply(s: Server, h: Hash, c: Call): (Result<Placement>, Fabric)
    requires Servable(s, h, c) && c.CallCreate?
  {
    RegisteredTarget(s.fabric, s.backend);
    Created(s.fabric, h, s.backend, c.incoming, c.kind, c.size, c.content, c.faults)
  }

  ghost function Serve(s: Server, h: Hash, c: Call): Server
    requires Servable(s, h, c)
  {
    match c
    case CallHello(boot) => s.(liveBoots := s.liveBoots + [boot])
    case CallCreate(_, _, _, _, _) => s.(fabric := Reply(s, h, c).1)
    case CallCommit(incoming) =>
      if Newer(incoming, s.fabric.authority) then s.(fabric := s.fabric.(authority := incoming), nextDispatch := s.nextDispatch + 1)
      else s
    case CallLoss(boot) =>
      s.(liveBoots := C.Erase(s.liveBoots, boot), fabric := s.fabric.(authority := C.Baseline(s.fabric.authority.epoch + 1)))
  }

  /** What the fence sees of the server, and of a request. */
  function Fence(s: Server): C.State {
    C.State(s.fabric.authority, s.liveBoots, s.nextDispatch)
  }

  ghost function Seen(s: Server, h: Hash, c: Call): C.Request
    requires Servable(s, h, c)
  {
    match c
    case CallHello(boot) => C.Hello(boot)
    case CallCreate(incoming, _, _, _, _) => C.Create(incoming, Reply(s, h, c).0.Ok?)
    case CallCommit(incoming) => C.Commit(incoming)
    case CallLoss(boot) => C.Loss(boot)
  }

  // ----- One request -----

  /** The object of a request that passes the fence and names its content's size. */
  predicate Defines(f: Fabric, incoming: Authority, size: nat, content: bytes) {
    Newer(incoming, f.authority) && |content| == size > 0
  }

  /** Entry o is all that was added to the catalog, with these placements. */
  ghost predicate OneMore(f: Fabric, g: Fabric, o: Id, placements: seq<Id>) {
    && o !in f.catalog && o in g.catalog && g.catalog == f.catalog[o := g.catalog[o]] && g.catalog[o].placements == placements
  }

  /** Everything a CREATE_OBJECT request does: the definition happens as soon as the fence is passed; the placement and the
      authority come together, or neither. */
  lemma CreateEffect(f: Fabric, h: Hash, backend: Id, incoming: Authority, kind: Enum, size: nat, content: bytes, faults: Faults)
    requires Steady(f, h) && Ahead(f) && |content| < TWO_64 && (backend in f.stores ==> Registered(f, backend))
    ensures var (r, g) := Created(f, h, backend, incoming, kind, size, content, faults);
      && (if r.Ok? then r.value.id !in f.placements && g.placements == f.placements[r.value.id := r.value]
          else g.placements == f.placements)
      && g.authority == (if r.Ok? then incoming else f.authority)
      && (if Defines(f, incoming, size, content) then
            OneMore(f, g, f.ids.obj, if r.Ok? then [r.value.id] else []) && g.ids.obj == f.ids.obj + 1
          else r.Err? && g.catalog == f.catalog && g.ids.obj == f.ids.obj)
  {
    hide Publish, DefinedObject, Safe, Wired, Newer;
    if Defines(f, incoming, size, content) {
      var (d, g) := DefineObject(f, h, kind, size, content, incoming, 1, PRIORITY_HIGH);
      DefinedId(f, h, kind, content, incoming, 1, PRIORITY_HIGH);
      PublishedEffect(f, g, h, d.value, content, backend, CreateOptions(incoming), faults);
    }
  }

  /** A publication right after the definition. */
  lemma PublishedEffect(f: Fabric, g: Fabric, h: Hash, obj: Object, content: bytes, backend: Id, opts: Options, faults: Faults)
    requires (backend in f.stores ==> Registered(f, backend)) && obj.id !in f.catalog
    requires exists rs :: g == f.(ids := f.ids.(obj := f.ids.obj + 1), catalog := f.catalog[obj.id := Entry(obj, rs, [])])
    ensures backend in g.stores ==> Registered(g, backend)
    ensures var (r, k) := Publish(g, h, obj, content, backend, opts, faults);
      && (if r.Ok? then r.value.id !in f.placements && k.placements == f.placements[r.value.id := r.value]
          else k.placements == f.placements)
      && k.authority == f.authority && k.ids.obj == f.ids.obj + 1
      && OneMore(f, k, obj.id, if r.Ok? then [r.value.id] else [])
  {
    hide Publish, Chunking, VerifyFrom, BuiltManifest, NewReplica, Counts;
    PublishEffect(g, h, obj, content, backend, opts, faults);
  }

  /** What an operation that moves nothing keeps. */
  ghost predicate Keeps(f: Fabric, g: Fabric, h: Hash) {
    Continues(f, g, h) && (Durable(f) ==> Durable(g)) && (Sound(f, h) ==> Sound(g, h))
    && (Durable(f) && NeverLost(f) ==> NeverLost(g))
  }

  lemma OpKeeps(f: Fabric, h: Hash, op: Op)
    requires Steady(f, h) && Allowed(f, op) && !op.OpMove?
    ensures Keeps(f, Step(f, h, op), h)
  {
    hide Safe, Wired, Durable, Tallied, NeverLost, Exact, Continues, Allowed, Step, Completed;
    StepSteady(f, h, op);
    if Durable(f) {
      StepDurable(f, h, op);
      if NeverLost(f) {
        StepNeverLost(f, h, op);
      }
    }
    if Sound(f, h) {
      StepSound(f, h, op);
    }
  }

  lemma KeepsSelf(f: Fabric, h: Hash)
    requires Steady(f, h)
    ensures Keeps(f, f, h)
  {
    hide Safe, Wired, Durable, Tallied, NeverLost, Preserves, SameObjects;
    Unchanged(f, h);
  }

  lemma KeepsOn(f: Fabric, g: Fabric, k: Fabric, h: Hash)
    requires Keeps(f, g, h) && Keeps(g, k, h)
    ensures Keeps(f, k, h)
  {
    hide Safe, Wired, Durable, Tallied, NeverLost, Preserves, SameObjects;
    PreservesTransitive(f, g, k);
    SameObjectsTransitive(f, g, k);
  }

  lemma Defined(f: Fabric, h: Hash, op: Op)
    requires Steady(f, h) && op.OpDefine? && |op.content| < TWO_64
    ensures Allowed(f, op)
    ensures Step(f, h, op) == DefineObject(f, h, op.kind, op.size, op.content, op.writer, op.minReplicas, op.priority).1
  {
    hide DefineObject, Safe, Wired;
  }

  lemma PublishedNext(f: Fabric, g: Fabric, h: Hash, define: Op, publish: Op)
    requires Steady(f, h) && Steady(g, h) && define.OpDefine? && |define.content| < TWO_64
    requires publish.OpPublish? && publish.opts.eagerVerify
    requires (Ok(publish.obj), g) ==
      DefineObject(f, h, define.kind, define.size, define.content, define.writer, define.minReplicas, define.priority)
    ensures Allowed(g, publish) && (publish.backend in g.stores ==> Registered(g, publish.backend))
    ensures Step(g, h, publish) ==
      Publish(g, h, publish.obj, publish.content, publish.backend, publish.opts, publish.faults).1
  {
    hide Publish, DefinedObject, Safe;
  }

  lemma Taken(f: Fabric, h: Hash, op: Op)
    requires Steady(f, h) && op.OpAuthority?
    ensures Allowed(f, op) && Step(f, h, op) == f.(authority := op.authority)
  {
    hide Safe, Wired;
  }

  /** Whatever a request meets, its operations are ones the runtime's guarantees cover. */
  lemma CreateKeeps(f: Fabric, h: Hash, backend: Id, incoming: Authority, kind: Enum, size: nat, content: bytes, faults: Faults)
    requires Steady(f, h) && |content| < TWO_64 && (backend in f.stores ==> Registered(f, backend))
    ensures Keeps(f, Created(f, h, backend, incoming, kind, size, content, faults).1, h)
  {
    hide DefineObject, Publish, Safe, Wired, Preserves, SameObjects, Durable, Sound, NeverLost, Newer, Allowed, Step;
    KeepsSelf(f, h);
    if Newer(incoming, f.authority) {
      var define := OpDefine(kind, size, content, incoming, 1, PRIORITY_HIGH);
      Defined(f, h, define);
      OpKeeps(f, h, define);
      var (d, g) := DefineObject(f, h, kind, size, content, incoming, 1, PRIORITY_HIGH);
      if d.Ok? {
        var publish := OpPublish(d.value, content, backend, CreateOptions(incoming), faults);
        PublishedNext(f, g, h, define, publish);
        OpKeeps(g, h, publish);
        KeepsOn(f, g, Step(g, h, publish), h);
        var take := OpAuthority(incoming);
        Taken(Step(g, h, publish), h, take);
        OpKeeps(Step(g, h, publish), h, take);
        KeepsOn(f, Step(g, h, publish), Step(Step(g, h, publish), h, take), h);
      }
    }
  }

  // ----- Runs of requests -----

  /** Every request leaves a state the next one can be served in. */
  lemma ServeKeeps(s: Server, h: Hash, c: Call)
    requires Servable(s, h, c)
    ensures Keeps(s.fabric, Serve(s, h, c).fabric, h)
  {
    hide Safe, Wired, Keeps, Created, Allowed, Step;
    assert Wired(s.fabric);
    KeepsSelf(s.fabric, h);
    match c
    case CallHello(boot) =>
    case CallCreate(incoming, kind, size, content, faults) =>
      RegisteredTarget(s.fabric, s.backend);
      CreateKeeps(s.fabric, h, s.backend, incoming, kind, size, content, faults);
    case CallCommit(incoming) => AuthorityKeeps(s.fabric, h, incoming);
    case CallLoss(boot) => AuthorityKeeps(s.fabric, h, C.Baseline(s.fabric.authority.epoch + 1));
  }

  lemma AuthorityKeeps(f: Fabric, h: Hash, a: Authority)
    requires Steady(f, h)
    ensures Keeps(f, f.(authority := a), h)
  {
    hide Steady, Keeps, Allowed, Step;
    Taken(f, h, OpAuthority(a));
    OpKeeps(f, h, OpAuthority(a));
  }

  /** The fence sees each request as Coordinator does, and lets through exactly what that accepts. */
  lemma ServeRefines(s: Server, h: Hash, c: Call)
    requires Servable(s, h, c) && Ahead(s.fabric)
    ensures Fence(Serve(s, h, c)) == C.Step(Fence(s), Seen(s, h, c))
    ensures c.CallCreate? ==> (Reply(s, h, c).0.Ok? <==> C.Accepted(Fence(s), Seen(s, h, c)))
  {
    hide Safe, Wired, Created, Newer, OneMore;
    if c.CallCreate? {
      RegisteredTarget(s.fabric, s.backend);
      CreateEffect(s.fabric, h, s.backend, c.incoming, c.kind, c.size, c.content, c.faults);
      if !Newer(c.incoming, s.fabric.authority) {
        StaleRefused(s.fabric, h, s.backend, c.incoming, c.kind, c.size, c.content, c.faults);
      }
    }
  }

  lemma StaleRefused(f: Fabric, h: Hash, backend: Id, incoming: Authority, kind: Enum, size: nat, content: bytes, faults: Faults)
    requires |content| < TWO_64 && (backend in f.stores ==> Registered(f, backend)) && !Newer(incoming, f.authority)
    ensures Created(f, h, backend, incoming, kind, size, content, faults) == (Err(StaleAuthority), f)
  {}

  predicate Sized(calls: seq<Call>) {
    forall c <- calls :: c.CallCreate? ==> |c.content| < TWO_64
  }

  ghost function ServeAll(s: Server, h: Hash, calls: seq<Call>): Server
    requires Steady(s.fabric, h) && Sized(calls)
    decreases |calls|
  {
    if calls == [] then s
    else
      ServeKeeps(s, h, calls[0]);
      ServeAll(Serve(s, h, calls[0]), h, calls[1..])
  }

  ghost function SeenAll(s: Server, h: Hash, calls: seq<Call>): seq<C.Request>
    requires Steady(s.fabric, h) && Sized(calls)
    decreases |calls|
  {
    if calls == [] then []
    else
      ServeKeeps(s, h, calls[0]);
      [Seen(s, h, calls[0])] + SeenAll(Serve(s, h, calls[0]), h, calls[1..])
  }

  /** The CREATE_OBJECT requests a run accepts. */
  function Creations(s: C.State, rs: seq<C.Request>): nat
    decreases |rs|
  {
    if rs == [] then 0
    else (if rs[0].Create? && C.Accepted(s, rs[0]) then 1 else 0) + Creations(C.Step(s, rs[0]), rs[1..])
  }

  lemma {:induction false} ServeAllKeeps(s: Server, h: Hash, calls: seq<Call>)
    requires Sound(s.fabric, h) && Sized(calls)
    ensures var t := ServeAll(s, h, calls); Keeps(s.fabric, t.fabric, h) && Sound(t.fabric, h)
    decreases |calls|
  {
    hide Safe, Wired, Durable, Tallied, Keeps, Serve, Fence, C.Accepted, Seen;
    if calls == [] {
      KeepsSelf(s.fabric, h);
    } else {
      assert calls[0] in calls && forall c <- calls[1..] :: c in calls;
      ServeKeeps(s, h, calls[0]);
      ServeSound(s, h, calls[0]);
      var t := Serve(s, h, calls[0]);
      ServeAllKeeps(t, h, calls[1..]);
      KeepsOn(s.fabric, t.fabric, ServeAll(t, h, calls[1..]).fabric, h);
    }
  }

  /** Over any requests of any workers, with any backend calls failing: the runtime keeps all its guarantees, the fence moves as
      in Coordinator, and there is one new placement for each CREATE_OBJECT request that was accepted. */
  lemma {:induction false} ServeAllFenced(s: Server, h: Hash, calls: seq<Call>)
    requires Sound(s.fabric, h) && Sized(calls)
    ensures var t := ServeAll(s, h, calls);
      && Keeps(s.fabric, t.fabric, h) && Sound(t.fabric, h)
      && Fence(t) == C.Run(Fence(s), SeenAll(s, h, calls))
      && |t.fabric.placements| == |s.fabric.placements| + Creations(Fence(s), SeenAll(s, h, calls))
    decreases |calls|
  {
    hide Safe, Wired, Durable, Tallied, Keeps, Serve, Seen, Fence, C.Step, C.Accepted;
    ServeAllKeeps(s, h, calls);
    if calls != [] {
      assert calls[0] in calls && forall c <- calls[1..] :: c in calls;
      ServeKeeps(s, h, calls[0]);
      ServeSound(s, h, calls[0]);
      ServeRefines(s, h, calls[0]);
      var t := Serve(s, h, calls[0]);
      ServeAllFenced(t, h, calls[1..]);
      assert SeenAll(s, h, calls) == [Seen(s, h, calls[0])] + SeenAll(t, h, calls[1..]);
    }
  }

  /** A request keeps the runtime sound, and adds a placement exactly when it is a CREATE_OBJECT that is accepted. */
  lemma ServeSound(s: Server, h: Hash, c: Call)
    requires Servable(s, h, c) && Sound(s.fabric, h)
    ensures Sound(Serve(s, h, c).fabric, h) && Ahead(s.fabric)
    ensures var r := Seen(s, h, c);
      |Serve(s, h, c).fabric.placements| == |s.fabric.placements| + if r.Create? && C.Accepted(Fence(s), r) then 1 else 0
  {
    hide Safe, Wired, Durable, Conserved, Created, Newer, OneMore, NeverLost, Preserves, SameObjects;
    assert Wired(s.fabric);
    ServeKeeps(s, h, c);
    ServeRefines(s, h, c);
    if c.CallCreate? {
      RegisteredTarget(s.fabric, s.backend);
      CreateEffect(s.fabric, h, s.backend, c.incoming, c.kind, c.size, c.content, c.faults);
    }
  }

  // ----- What is not fenced -----

  /** An envelope whose publication failed passes the fence again and defines a second object; one whose publication went
      through never does. */
  lemma DefinesAgainIff(f: Fabric, h: Hash, backend: Id, incoming: Authority, kind: Enum, size: nat, content: bytes,
                        faults: Faults, laterFaults: Faults)
    requires Sound(f, h) && |content| < TWO_64 && (backend in f.stores ==> Registered(f, backend))
    requires Defines(f, incoming, size, content)
    ensures var (r, g) := Created(f, h, backend, incoming, kind, size, content, faults);
      && (backend in g.stores ==> Registered(g, backend)) && f.ids.obj in g.catalog
      && var (again, k) := Created(g, h, backend, incoming, kind, size, content, laterFaults);
         (f.ids.obj + 1 in k.catalog <==> r.Err?) && (r.Ok? ==> again == Err(StaleAuthority) && k == g)
  {
    hide Safe, Wired, Durable, Conserved, Created, Compare, NeverLost, Preserves, SameObjects;
    CreateEffect(f, h, backend, incoming, kind, size, content, faults);
    CreateKeeps(f, h, backend, incoming, kind, size, content, faults);
    var (r, g) := Created(f, h, backend, incoming, kind, size, content, faults);
    RegisteredTarget(g, backend);
    NewerOrder(incoming, incoming, incoming);
    if r.Ok? {
      StaleRefused(g, h, backend, incoming, kind, size, content, laterFaults);
    } else {
      CreateEffect(g, h, backend, incoming, kind, size, content, laterFaults);
    }
  }
}
