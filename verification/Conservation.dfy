/** Ledger and catalog agree: between operations nothing is reserved, and the committed bytes of a backend are
    the sizes of the placements on it that have not been evicted. */
module Conservation {
  import opened Bytes
  import opened Status
  import opened Model
  import opened BlobStore
  import opened Sums
  import opened Runtime
  import opened Effects
  import L = Ledger

  ghost function SizeTerm(p: Placement, b: Id): nat {
    if Live(p) && p.backend == b then p.physicalSize else 0
  }

  ghost function SizeTerms(ps: map<Id, Placement>, b: Id): map<Id, nat> {
    map p | p in ps :: SizeTerm(ps[p], b)
  }

  /** Bytes of the placements on a backend that have not been evicted. */
  ghost function Occupied(ps: map<Id, Placement>, b: Id): nat {
    Sum(SizeTerms(ps, b))
  }

  /** No account is in use between operations except for what placements occupy. */
  ghost predicate Settled(l: L.Ledger, ps: map<Id, Placement>) {
    && L.Balanced(l)
    && (forall b <- l.backends :: l.backends[b].reserved == 0 && l.backends[b].committed == Occupied(ps, b))
  }

  ghost predicate Conserved(f: Fabric) {
    && Settled(f.ledger, f.placements)
    && f.ledger.backends.Keys == f.stores.Keys
    && (forall b <- f.stores :: Registered(f, b))
    && (forall p <- f.placements :: f.placements[p].obj in f.catalog && f.placements[p].backend in f.stores)
  }

  lemma OccupiedUpdate(ps: map<Id, Placement>, id: Id, p: Placement, b: Id)
    ensures Occupied(ps[id := p], b) == Occupied(ps, b) - (if id in ps then SizeTerm(ps[id], b) else 0) + SizeTerm(p, b)
  {
    hide SizeTerm;
    assert SizeTerms(ps[id := p], b) == SizeTerms(ps, b)[id := SizeTerm(p, b)];
    SumUpdate(SizeTerms(ps, b), id, SizeTerm(p, b));
  }

  lemma OccupiedTerm(ps: map<Id, Placement>, id: Id, b: Id)
    requires id in ps
    ensures SizeTerm(ps[id], b) <= Occupied(ps, b)
  {
    SumTerm(SizeTerms(ps, b), id);
  }

  // ----- A reservation, committed or given back -----

  /** Reserving and giving back leaves every account as it was. */
  lemma ReserveRelease(l: L.Ledger, b: Id, bytes: U64, generation: nat, owner: Id)
    requires L.Balanced(l) && forall i <- l.backends :: l.backends[i].reserved == 0
    ensures var (r, held) := L.Reserve(l, b, bytes, generation, owner);
      L.Balanced(held) && held.allowance == l.allowance && (r.Err? ==> held.backends == l.backends)
      && (r.Ok? ==> var m := L.Release(held, r.value.id, r.value.generation).1;
           L.Balanced(m) && m.backends == l.backends && m.allowance == l.allowance)
  {
    hide L.Balanced;
    L.ReserveKeeps(l, b, bytes, generation, owner);
    var (r, held) := L.Reserve(l, b, bytes, generation, owner);
    if r.Ok? {
      L.ReleaseKeeps(held, r.value.id, r.value.generation);
      var m := L.Release(held, r.value.id, r.value.generation).1;
      assert m.backends == l.backends;
    }
  }

  /** Reserving and committing moves the bytes to the committed side; the guard's release then finds
      nothing to do. */
  lemma ReserveCommit(l: L.Ledger, b: Id, bytes: U64, generation: nat, owner: Id, placement: Id)
    requires L.Balanced(l) && forall i <- l.backends :: l.backends[i].reserved == 0
    requires L.Reserve(l, b, bytes, generation, owner).0.Ok?
    ensures var (r, held) := L.Reserve(l, b, bytes, generation, owner);
      var (o, done) := L.Commit(held, r.value.id, placement);
      && b in l.backends && o == Pass && L.Balanced(done)
      && L.Release(done, r.value.id, r.value.generation).1 == done
      && l.backends[b].committed + bytes < TWO_64 && done.allowance == l.allowance
      && done.backends == l.backends[b := l.backends[b].(committed := l.backends[b].committed + bytes)]
  {
    hide L.Balanced, L.Commit, L.Release;
    L.ReserveKeeps(l, b, bytes, generation, owner);
    var (r, held) := L.Reserve(l, b, bytes, generation, owner);
    assert held.backends[b] == l.backends[b].(reserved := bytes);
    BalancedBounds(held, b);
    L.CommitKeeps(held, r.value.id, placement);
    L.CommitOutcome(held, r.value.id, placement);
    var done := L.Commit(held, r.value.id, placement).1;
    L.CommittedStays(done, r.value.id, r.value.generation);
    CommitMoves(held, r.value.id, placement);
    assert held.backends == l.backends[b := held.backends[b]];
  }

  lemma CommitMoves(l: L.Ledger, id: Id, placement: Id)
    requires L.Commit(l, id, placement).0.Pass? && id in l.reservations
    requires var r := l.reservations[id];
      r.backend in l.backends && l.backends[r.backend].reserved == r.bytes
      && l.backends[r.backend].committed + r.bytes < TWO_64
    ensures var r := l.reservations[id];
      var c := l.backends[r.backend];
      L.Commit(l, id, placement).1.backends == l.backends[r.backend := c.(reserved := 0, committed := c.committed + r.bytes)]
      && L.Commit(l, id, placement).1.allowance == l.allowance
  {}

  lemma BalancedBounds(l: L.Ledger, b: Id)
    requires L.Balanced(l) && b in l.backends
    ensures l.backends[b].reserved + l.backends[b].committed < TWO_64
  {}

  /** The backend's committed bytes grew by so much, and no account changed otherwise. */
  ghost predicate Charged(l: L.Ledger, m: L.Ledger, backend: Id, size: U64) {
    && backend in l.backends
    && var c := l.backends[backend];
       c.committed + size < TWO_64
       && m.backends == l.backends[backend := c.(committed := c.committed + size)]
  }

  // ----- publish_to -----

  /** A publication charges the backend for the placement it adds and for nothing else, however it ends. */
  lemma PublishLedger(f: Fabric, h: Hash, obj: Object, content: bytes, backend: Id, opts: Options, faults: Faults)
    requires (backend in f.stores ==> Registered(f, backend)) && obj.id in f.catalog
    requires L.Balanced(f.ledger) && forall b <- f.ledger.backends :: f.ledger.backends[b].reserved == 0
    ensures var (r, g) := Publish(f, h, obj, content, backend, opts, faults);
      L.Balanced(g.ledger) && g.ledger.allowance == f.ledger.allowance &&
      if r.Ok? then Charged(f.ledger, g.ledger, backend, obj.logicalSize) else g.ledger.backends == f.ledger.backends
  {
    hide PublishReserved, WriteFrom, VerifyFrom, BuiltManifest, Published, L.Reserve, L.Release, L.Commit, L.Balanced;
    if |content| == obj.logicalSize && backend in f.stores {
      match ActingAuthority(f, opts.authority)
      case Err(_) =>
      case Ok(auth) =>
        L.ReserveActive(f.ledger, backend, obj.logicalSize, auth.generation, auth.worker);
        ReserveRelease(f.ledger, backend, obj.logicalSize, auth.generation, auth.worker);
        var (r, l) := L.Reserve(f.ledger, backend, obj.logicalSize, auth.generation, auth.worker);
        if r.Ok? {
          PublishReservedEffect(f.(ledger := l), h, obj, content, backend, opts, faults, auth, r.value.id);
          var res := PublishReserved(f.(ledger := l), h, obj, content, backend, opts, faults, auth, r.value.id).0;
          if res.Ok? {
            ReserveCommit(f.ledger, backend, obj.logicalSize, auth.generation, auth.worker, res.value.id);
          }
        }
    }
  }

  lemma PublishConserves(f: Fabric, h: Hash, obj: Object, content: bytes, backend: Id, opts: Options, faults: Faults)
    requires Conserved(f) && obj.id in f.catalog
    ensures Conserved(Publish(f, h, obj, content, backend, opts, faults).1)
  {
    hide Publish, WriteFrom, VerifyFrom, BuiltManifest, WithPlacement, L.Balanced, Occupied;
    PublishLedger(f, h, obj, content, backend, opts, faults);
    PublishEffect(f, h, obj, content, backend, opts, faults);
    var (r, g) := Publish(f, h, obj, content, backend, opts, faults);
    if r.Ok? {
      forall b | b in g.ledger.backends
        ensures g.ledger.backends[b].reserved == 0 && g.ledger.backends[b].committed == Occupied(g.placements, b)
      {
        OccupiedUpdate(f.placements, r.value.id, r.value, b);
      }
    }
  }

  // ----- evict -----

  /** An eviction that is allowed always finds the bytes it gives back: the status that evict ignores
      is never NegativeAccounting. */
  lemma EvictConserves(f: Fabric, id: Id, faults: Faults)
    requires Conserved(f)
    ensures var (o, g) := Evict(f, id, faults);
      Conserved(g) && (o.Pass? ==>
        var p := f.placements[id];
        L.RemoveCommitted(f.ledger, p.backend, p.physicalSize).0 == Pass
        && Occupied(g.placements, p.backend) == Occupied(f.placements, p.backend) - p.physicalSize)
  {
    hide L.Balanced, Occupied, DropAll, EvictedEntry, BlobsOf;
    var (o, g) := Evict(f, id, faults);
    if o.Pass? {
      var p := f.placements[id];
      OccupiedTerm(f.placements, id, p.backend);
      L.RemoveCommittedKeeps(f.ledger, p.backend, p.physicalSize);
      forall b | b in g.ledger.backends
        ensures g.ledger.backends[b].reserved == 0 && g.ledger.backends[b].committed == Occupied(g.placements, b)
      {
        OccupiedUpdate(f.placements, id, EvictedPlacement(p), b);
      }
      OccupiedUpdate(f.placements, id, EvictedPlacement(p), p.backend);
    }
  }

  // ----- The other operations -----

  lemma DemoteConserves(f: Fabric, id: Id)
    requires Conserved(f) && (id in f.placements ==> Live(f.placements[id]))
    ensures Conserved(Demoted(f, id))
  {
    hide L.Balanced, Occupied;
    if id in f.placements {
      forall b | b in f.ledger.backends
        ensures Occupied(Demoted(f, id).placements, b) == Occupied(f.placements, b)
      {
        OccupiedUpdate(f.placements, id, f.placements[id].(lifecycle := LIFECYCLE_STALE), b);
      }
    }
  }

  lemma RegisterConserves(f: Fabric, desc: Backend, tier: Tier)
    requires Conserved(f) && desc.id !in f.stores && desc.capacity.reserved == 0 && desc.capacity.committed == 0
    ensures Conserved(RegisterBackend(f, desc, tier))
  {
    hide L.Balanced, Occupied;
    L.RegisterKeeps(f.ledger, desc.id, desc.capacity);
    NothingOccupied(f.placements, desc.id);
    var g := RegisterBackend(f, desc, tier);
    forall b | b in g.stores
      ensures Registered(g, b)
    {
      assert b == desc.id || Registered(f, b);
    }
  }

  lemma NothingOccupied(ps: map<Id, Placement>, b: Id)
    requires forall p <- ps :: ps[p].backend != b
    ensures Occupied(ps, b) == 0
  {
    hide Sum;
    SumOfZeros(SizeTerms(ps, b));
  }

  lemma DefineConserves(f: Fabric, h: Hash, kind: Enum, size: nat, content: bytes, writer: Authority,
                        minReplicas: nat, priority: Enum)
    requires Conserved(f) && |content| < TWO_64
    ensures Conserved(DefineObject(f, h, kind, size, content, writer, minReplicas, priority).1)
  {
    hide L.Balanced, Occupied;
  }

  lemma EmptyConserved()
    ensures Conserved(EmptyFabric())
  {
    L.EmptyBalanced(0);
  }
}
