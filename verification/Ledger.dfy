/** src/capacity.cpp: the reservation ledger. Every method holds one mutex throughout, so any thread
    schedule is a sequence of the steps below. Byte counts are uint64_t and wrap. */
module Ledger {
  import opened Bytes
  import opened Status
  import opened Model
  import opened Sums

  datatype State = ACTIVE | COMMITTED | RELEASED | EXPIRED

  datatype Reservation = Reservation(
    id: Id, generation: nat, backend: Id, bytes: U64, state: State, owner: Id, placement: Id, committed: bool)

  datatype Ledger = Ledger(
    backends: map<Id, Capacity>, reservations: map<Id, Reservation>,
    allowance: U64, totalReserved: U64, totalCommitted: U64, nextId: Id)

  function Empty(allowance: U64): Ledger {
    Ledger(map[], map[], allowance, 0, 0, 1)
  }

  // ----- uint64_t arithmetic -----

  function Add64(a: U64, b: U64): U64 {
    (a + b) % TWO_64
  }

  function Sub64(a: U64, b: U64): U64 {
    (a - b) % TWO_64
  }

  // ----- The operations as functions of the ledger -----

  function Headroom(c: Capacity, allowance: U64): U64 {
    var occupancy := Add64(c.reserved, c.committed);
    var limit := Add64(c.free, allowance);
    if limit > occupancy then limit - occupancy else 0
  }

  function Register(l: Ledger, b: Id, cap: Capacity): Ledger {
    l.(backends := l.backends[b := cap])
  }

  function RefreshFree(l: Ledger, b: Id, free: U64): Ledger {
    if b in l.backends then l.(backends := l.backends[b := l.backends[b].(free := free)]) else l
  }

  function Reserve(l: Ledger, b: Id, bytes: U64, generation: nat, owner: Id): (Result<Reservation>, Ledger) {
    if b !in l.backends then (Err(NotFound), l)
    else if bytes == 0 then (Err(InvalidArgument), l)
    else if bytes > Headroom(l.backends[b], l.allowance) then (Err(InsufficientCapacity), l)
    else
      var res := Reservation(l.nextId, generation, b, bytes, ACTIVE, owner, 0, false);
      if l.nextId in l.reservations then (Err(DuplicateReservation), l.(nextId := l.nextId + 1))
      else
        var c := l.backends[b];
        (Ok(res), l.(nextId := l.nextId + 1, reservations := l.reservations[res.id := res],
                     backends := l.backends[b := c.(reserved := Add64(c.reserved, bytes))],
                     totalReserved := Add64(l.totalReserved, bytes)))
  }

  function Commit(l: Ledger, id: Id, placement: Id): (Outcome, Ledger) {
    if id !in l.reservations then (Fail(NotFound), l)
    else
      var res := l.reservations[id];
      if res.state != ACTIVE then (Fail(InvalidState), l)
      else if res.backend !in l.backends then (Fail(NotFound), l)
      else
        var c := l.backends[res.backend];
        if c.reserved < res.bytes then (Fail(NegativeAccounting), l)
        else
          (Pass, l.(backends := l.backends[res.backend :=
                      c.(reserved := c.reserved - res.bytes, committed := Add64(c.committed, res.bytes))],
                    totalReserved := Sub64(l.totalReserved, res.bytes),
                    totalCommitted := Add64(l.totalCommitted, res.bytes),
                    reservations := l.reservations[id :=
                      res.(state := COMMITTED, committed := true, placement := placement)]))
  }

  function Release(l: Ledger, id: Id, generation: nat): (Outcome, Ledger) {
    if id !in l.reservations then (Fail(StaleReservation), l)
    else
      var res := l.reservations[id];
      if res.state == RELEASED || res.state == EXPIRED then (Fail(DuplicateReservation), l)
      else if generation != res.generation then (Fail(StaleReservation), l)
      else if res.committed then (Fail(InvalidState), l)
      else if res.backend !in l.backends then (Fail(NotFound), l)
      else
        var c := l.backends[res.backend];
        if c.reserved < res.bytes then (Fail(NegativeAccounting), l)
        else
          (Pass, l.(backends := l.backends[res.backend := c.(reserved := c.reserved - res.bytes)],
                    totalReserved := Sub64(l.totalReserved, res.bytes),
                    reservations := l.reservations[id := res.(state := RELEASED)]))
  }

  function AddCommitted(l: Ledger, b: Id, bytes: U64): (Outcome, Ledger) {
    if b !in l.backends then (Fail(NotFound), l)
    else
      var c := l.backends[b];
      (Pass, l.(backends := l.backends[b := c.(committed := Add64(c.committed, bytes))],
                totalCommitted := Add64(l.totalCommitted, bytes)))
  }

  function RemoveCommitted(l: Ledger, b: Id, bytes: U64): (Outcome, Ledger) {
    if b !in l.backends then (Fail(NotFound), l)
    else
      var c := l.backends[b];
      if c.committed < bytes then (Fail(NegativeAccounting), l)
      else
        (Pass, l.(backends := l.backends[b := c.(committed := c.committed - bytes)],
                  totalCommitted := Sub64(l.totalCommitted, bytes)))
  }

  function Free(l: Ledger, b: Id): U64 {
    if b !in l.backends then 0
    else
      var c := l.backends[b];
      var occupancy := Add64(c.reserved, c.committed);
      if c.free > occupancy then c.free - occupancy else 0
  }

  predicate IsCommitted(l: Ledger, id: Id) {
    id in l.reservations && l.reservations[id].state == COMMITTED && l.reservations[id].committed
  }

  /** A commit marks the reservation or changes nothing; a committed reservation can not be released. */
  lemma CommitOutcome(l: Ledger, id: Id, placement: Id)
    ensures var (o, m) := Commit(l, id, placement); if o.Pass? then IsCommitted(m, id) else m == l
  {}

  lemma ReserveActive(l: Ledger, b: Id, bytes: U64, generation: nat, owner: Id)
    ensures var (r, m) := Reserve(l, b, bytes, generation, owner);
      r.Ok? ==> (bytes > 0 && r.value.state == ACTIVE && r.value.generation == generation
                 && r.value.id in m.reservations && m.reservations[r.value.id] == r.value)
  {}

  lemma CommittedStays(l: Ledger, id: Id, generation: nat)
    requires IsCommitted(l, id)
    ensures Release(l, id, generation).1 == l
  {}

  // ----- The object -----

  class ReservationLedger {
    var backends: map<Id, Capacity>
    var reservations: map<Id, Reservation>
    const allowance: U64
    var totalReserved: U64
    var totalCommitted: U64
    var nextId: Id

    function Abs(): Ledger
      reads this
    {
      Ledger(backends, reservations, allowance, totalReserved, totalCommitted, nextId)
    }

    constructor (allowance: U64)
      ensures Abs() == Empty(allowance)
    {
      backends, reservations, this.allowance, totalReserved, totalCommitted, nextId := map[], map[], allowance, 0, 0, 1;
    }

    method RegisterBackend(b: Id, cap: Capacity)
      modifies this
      ensures Abs() == Register(old(Abs()), b, cap)
    {
      backends := backends[b := cap];
    }

    method RefreshFreeBytes(b: Id, free: U64)
      modifies this
      ensures Abs() == RefreshFree(old(Abs()), b, free)
    {
      if b in backends {
        backends := backends[b := backends[b].(free := free)];
      }
    }

    method ReserveBytes(b: Id, bytes: U64, generation: nat, owner: Id) returns (r: Result<Reservation>)
      modifies this
      ensures (r, Abs()) == Reserve(old(Abs()), b, bytes, generation, owner)
    {
      if b !in backends { return Err(NotFound); }
      var c := backends[b];
      if bytes == 0 { return Err(InvalidArgument); }
      var occupancy := Add64(c.reserved, c.committed);
      var limit := Add64(c.free, allowance);
      var headroom := if limit > occupancy then limit - occupancy else 0;
      if bytes > headroom { return Err(InsufficientCapacity); }
      var res := Reservation(nextId, generation, b, bytes, ACTIVE, owner, 0, false);
      nextId := nextId + 1;
      if res.id in reservations { return Err(DuplicateReservation); }
      reservations := reservations[res.id := res];
      backends := backends[b := c.(reserved := Add64(c.reserved, bytes))];
      totalReserved := Add64(totalReserved, bytes);
      return Ok(res);
    }

    method CommitReservation(id: Id, placement: Id) returns (o: Outcome)
      modifies this
      ensures (o, Abs()) == Commit(old(Abs()), id, placement)
    {
      if id !in reservations { return Fail(NotFound); }
      var res := reservations[id];
      if res.state != ACTIVE { return Fail(InvalidState); }
      if res.backend !in backends { return Fail(NotFound); }
      var c := backends[res.backend];
      if c.reserved < res.bytes { return Fail(NegativeAccounting); }
      c := c.(reserved := c.reserved - res.bytes);
      c := c.(committed := Add64(c.committed, res.bytes));
      backends := backends[res.backend := c];
      totalReserved := Sub64(totalReserved, res.bytes);
      totalCommitted := Add64(totalCommitted, res.bytes);
      reservations := reservations[id := res.(state := COMMITTED, committed := true, placement := placement)];
      return Pass;
    }

    method ReleaseReservation(id: Id, generation: nat) returns (o: Outcome)
      modifies this
      ensures (o, Abs()) == Release(old(Abs()), id, generation)
    {
      if id !in reservations { return Fail(StaleReservation); }
      var res := reservations[id];
      if res.state == RELEASED || res.state == EXPIRED { return Fail(DuplicateReservation); }
      if generation != res.generation { return Fail(StaleReservation); }
      if res.committed { return Fail(InvalidState); }
      if res.backend !in backends { return Fail(NotFound); }
      var c := backends[res.backend];
      if c.reserved < res.bytes { return Fail(NegativeAccounting); }
      backends := backends[res.backend := c.(reserved := c.reserved - res.bytes)];
      totalReserved := Sub64(totalReserved, res.bytes);
      reservations := reservations[id := res.(state := RELEASED)];
      return Pass;
    }

    method AddCommittedBytes(b: Id, bytes: U64) returns (o: Outcome)
      modifies this
      ensures (o, Abs()) == AddCommitted(old(Abs()), b, bytes)
    {
      if b !in backends { return Fail(NotFound); }
      var c := backends[b];
      backends := backends[b := c.(committed := Add64(c.committed, bytes))];
      totalCommitted := Add64(totalCommitted, bytes);
      return Pass;
    }

    method RemoveCommittedBytes(b: Id, bytes: U64) returns (o: Outcome)
      modifies this
      ensures (o, Abs()) == RemoveCommitted(old(Abs()), b, bytes)
    {
      if b !in backends { return Fail(NotFound); }
      var c := backends[b];
      if c.committed < bytes { return Fail(NegativeAccounting); }
      backends := backends[b := c.(committed := c.committed - bytes)];
      totalCommitted := Sub64(totalCommitted, bytes);
      return Pass;
    }

    method FreeBytes(b: Id) returns (free: U64)
      ensures free == Free(Abs(), b)
    {
      if b !in backends { return 0; }
      var c := backends[b];
      var occupancy := Add64(c.reserved, c.committed);
      free := if c.free > occupancy then c.free - occupancy else 0;
    }
  }

  // ----- What the accounts must say -----

  ghost function ActiveTerm(r: Reservation, b: Id): nat {
    if r.state == ACTIVE && r.backend == b then r.bytes else 0
  }

  ghost function ActiveTerms(rs: map<Id, Reservation>, b: Id): map<Id, nat> {
    map id | id in rs :: ActiveTerm(rs[id], b)
  }

  /** Bytes held by ACTIVE reservations on a backend. */
  ghost function ActiveOn(rs: map<Id, Reservation>, b: Id): nat {
    Sum(ActiveTerms(rs, b))
  }

  ghost function ReservedTerms(bs: map<Id, Capacity>): map<Id, nat> {
    map b | b in bs :: bs[b].reserved
  }

  ghost function CommittedTerms(bs: map<Id, Capacity>): map<Id, nat> {
    map b | b in bs :: bs[b].committed
  }

  ghost function SumReserved(bs: map<Id, Capacity>): nat {
    Sum(ReservedTerms(bs))
  }

  ghost function SumCommitted(bs: map<Id, Capacity>): nat {
    Sum(CommittedTerms(bs))
  }

  ghost predicate ValidReservation(l: Ledger, id: Id)
    requires id in l.reservations
  {
    var r := l.reservations[id];
    r.id == id < l.nextId && r.backend in l.backends && r.bytes > 0 && r.state != EXPIRED
    && (r.committed <==> r.state == COMMITTED)
  }

  ghost predicate Balanced(l: Ledger) {
    && (forall id <- l.reservations :: ValidReservation(l, id))
    && (forall b <- l.backends :: l.backends[b].reserved == ActiveOn(l.reservations, b))
    && (forall b <- l.backends :: l.backends[b].reserved + l.backends[b].committed < TWO_64)
    && l.totalReserved == SumReserved(l.backends) % TWO_64
    && l.totalCommitted == SumCommitted(l.backends) % TWO_64
  }

  /** No backend is promised beyond its limit. */
  ghost predicate WithinLimits(l: Ledger) {
    forall b <- l.backends ::
      l.backends[b].reserved + l.backends[b].committed <= Add64(l.backends[b].free, l.allowance)
  }

  // ----- Sums under point updates -----

  lemma ActiveUpdate(rs: map<Id, Reservation>, id: Id, r: Reservation, b: Id)
    ensures ActiveOn(rs[id := r], b)
         == ActiveOn(rs, b) - (if id in rs then ActiveTerm(rs[id], b) else 0) + ActiveTerm(r, b)
  {
    assert ActiveTerms(rs[id := r], b) == ActiveTerms(rs, b)[id := ActiveTerm(r, b)];
    SumUpdate(ActiveTerms(rs, b), id, ActiveTerm(r, b));
  }

  lemma ActiveTermBound(rs: map<Id, Reservation>, id: Id, b: Id)
    requires id in rs
    ensures ActiveTerm(rs[id], b) <= ActiveOn(rs, b)
  {
    SumTerm(ActiveTerms(rs, b), id);
  }

  lemma CapacityUpdate(bs: map<Id, Capacity>, b: Id, c: Capacity)
    ensures SumReserved(bs[b := c]) == SumReserved(bs) - (if b in bs then bs[b].reserved else 0) + c.reserved
    ensures SumCommitted(bs[b := c]) == SumCommitted(bs) - (if b in bs then bs[b].committed else 0) + c.committed
  {
    assert ReservedTerms(bs[b := c]) == ReservedTerms(bs)[b := c.reserved];
    SumUpdate(ReservedTerms(bs), b, c.reserved);
    assert CommittedTerms(bs[b := c]) == CommittedTerms(bs)[b := c.committed];
    SumUpdate(CommittedTerms(bs), b, c.committed);
  }

  /** A total kept modulo 2^64 follows an exact change of the sum behind it. */
  lemma TotalFollows(total: U64, sum: nat, delta: U64)
    requires total == sum % TWO_64
    ensures Add64(total, delta) == (sum + delta) % TWO_64
    ensures sum >= delta ==> Sub64(total, delta) == (sum - delta) % TWO_64
  {}

  /** One reservation record and one capacity change together, by the same amount. */
  lemma BalancedUpdate(l: Ledger, m: Ledger, id: Id, r: Reservation, c: Capacity)
    requires Balanced(l) && r.backend in l.backends
    requires m == l.(reservations := l.reservations[id := r], backends := l.backends[r.backend := c],
                     totalReserved := m.totalReserved, totalCommitted := m.totalCommitted, nextId := m.nextId)
    requires r.id == id < m.nextId && l.nextId <= m.nextId && r.bytes > 0 && r.state != EXPIRED
    requires r.committed <==> r.state == COMMITTED
    requires id in l.reservations ==> l.reservations[id].backend == r.backend
    requires var b := l.backends[r.backend];
             c.reserved == b.reserved - (if id in l.reservations then ActiveTerm(l.reservations[id], r.backend) else 0)
                         + ActiveTerm(r, r.backend)
    requires c.reserved + c.committed < TWO_64
    requires m.totalReserved == SumReserved(m.backends) % TWO_64
    requires m.totalCommitted == SumCommitted(m.backends) % TWO_64
    ensures Balanced(m)
  {
    hide ActiveOn, SumReserved, SumCommitted;
    forall b | b in m.backends
      ensures m.backends[b].reserved == ActiveOn(m.reservations, b)
    {
      ActiveUpdate(l.reservations, id, r, b);
    }
    forall i | i in m.reservations
      ensures ValidReservation(m, i)
    {
      if i != id {
        assert ValidReservation(l, i);
      }
    }
  }

  // ----- Each operation keeps the accounts -----

  lemma BalancedTotals(l: Ledger, b: Id)
    requires Balanced(l) && b in l.backends
    ensures l.totalReserved == SumReserved(l.backends) % TWO_64 && l.totalCommitted == SumCommitted(l.backends) % TWO_64
  {}

  /** The headroom check is exact: the sums it forms do not wrap. */
  lemma ReserveFits(l: Ledger, b: Id, bytes: U64, generation: nat, owner: Id)
    requires Balanced(l)
    ensures var (r, m) := Reserve(l, b, bytes, generation, owner);
      && l.nextId !in l.reservations
      && (r.Ok? <==> (b in l.backends && bytes > 0 &&
            l.backends[b].reserved + l.backends[b].committed + bytes <= Add64(l.backends[b].free, l.allowance)))
      && (r.Ok? ==> Add64(l.backends[b].reserved, bytes) == l.backends[b].reserved + bytes)
      && (WithinLimits(l) ==> WithinLimits(m)) && (r.Err? ==> m == l)
  {
    hide ActiveOn, SumReserved, SumCommitted;
    assert l.nextId in l.reservations ==> ValidReservation(l, l.nextId);
  }

  lemma ReserveKeeps(l: Ledger, b: Id, bytes: U64, generation: nat, owner: Id)
    requires Balanced(l)
    ensures var (r, m) := Reserve(l, b, bytes, generation, owner);
      Balanced(m) && (WithinLimits(l) ==> WithinLimits(m)) && r != Err(DuplicateReservation)
      && (r.Ok? <==> (b in l.backends && bytes > 0 &&
            l.backends[b].reserved + l.backends[b].committed + bytes <= Add64(l.backends[b].free, l.allowance)))
  {
    hide ActiveOn, SumReserved, SumCommitted, Balanced, Add64;
    ReserveFits(l, b, bytes, generation, owner);
    var (r, m) := Reserve(l, b, bytes, generation, owner);
    if r.Ok? {
      var c := m.backends[b];
      BalancedTotals(l, b);
      TotalFollows(l.totalReserved, SumReserved(l.backends), bytes);
      CapacityUpdate(l.backends, b, c);
      BalancedUpdate(l, m, l.nextId, r.value, c);
    }
  }

  lemma CommitKeeps(l: Ledger, id: Id, placement: Id)
    requires Balanced(l)
    ensures var (o, m) := Commit(l, id, placement);
      Balanced(m) && (WithinLimits(l) ==> WithinLimits(m))
      && (o.Pass? <==> id in l.reservations && l.reservations[id].state == ACTIVE)
      && o != Fail(NegativeAccounting)
  {
    hide ActiveOn, SumReserved, SumCommitted;
    if id in l.reservations && l.reservations[id].state == ACTIVE {
      var r := l.reservations[id];
      assert ValidReservation(l, id);
      ActiveTermBound(l.reservations, id, r.backend);
      CommitActive(l, Commit(l, id, placement).1, id, placement);
    }
  }

  lemma CommitActive(l: Ledger, m: Ledger, id: Id, placement: Id)
    requires Balanced(l) && id in l.reservations && l.reservations[id].state == ACTIVE
    requires l.reservations[id].backend in l.backends
    requires l.reservations[id].bytes <= l.backends[l.reservations[id].backend].reserved
    requires m == Commit(l, id, placement).1
    ensures Balanced(m) && (WithinLimits(l) ==> WithinLimits(m))
  {
    hide ActiveOn, SumReserved, SumCommitted, Sub64, Add64;
    var r := l.reservations[id];
    assert ValidReservation(l, id);
    var b := l.backends[r.backend];
    var c := m.backends[r.backend];
    NoWrap(b.committed, r.bytes);
    CapacityUpdate(l.backends, r.backend, c);
    ReservedTerm(l.backends, r.backend);
    TotalFollows(l.totalReserved, SumReserved(l.backends), r.bytes);
    TotalFollows(l.totalCommitted, SumCommitted(l.backends), r.bytes);
    BalancedUpdate(l, m, id, m.reservations[id], c);
  }

  lemma NoWrap(a: U64, b: U64)
    requires a + b < TWO_64
    ensures Add64(a, b) == a + b
  {}

  lemma ReleaseKeeps(l: Ledger, id: Id, generation: nat)
    requires Balanced(l)
    ensures var (o, m) := Release(l, id, generation);
      Balanced(m) && (WithinLimits(l) ==> WithinLimits(m))
      && (o.Pass? <==> id in l.reservations && l.reservations[id].state == ACTIVE
                       && l.reservations[id].generation == generation)
      && o != Fail(NegativeAccounting)
  {
    hide ActiveOn, SumReserved, SumCommitted;
    if id in l.reservations {
      var r := l.reservations[id];
      assert ValidReservation(l, id);
      if r.state == ACTIVE && r.generation == generation {
        ActiveTermBound(l.reservations, id, r.backend);
        var m := Release(l, id, generation).1;
        var c := m.backends[r.backend];
        CapacityUpdate(l.backends, r.backend, c);
        ReservedTerm(l.backends, r.backend);
        TotalFollows(l.totalReserved, SumReserved(l.backends), r.bytes);
        BalancedUpdate(l, m, id, m.reservations[id], c);
      }
    }
  }

  lemma ReservedTerm(bs: map<Id, Capacity>, b: Id)
    requires b in bs
    ensures bs[b].reserved <= SumReserved(bs) && bs[b].committed <= SumCommitted(bs)
  {
    SumTerm(ReservedTerms(bs), b);
    SumTerm(CommittedTerms(bs), b);
  }

  lemma RemoveCommittedKeeps(l: Ledger, b: Id, bytes: U64)
    requires Balanced(l)
    ensures var (o, m) := RemoveCommitted(l, b, bytes);
      Balanced(m) && (WithinLimits(l) ==> WithinLimits(m))
      && (o.Pass? <==> b in l.backends && bytes <= l.backends[b].committed)
  {
    hide ActiveOn, SumReserved, SumCommitted;
    var (o, m) := RemoveCommitted(l, b, bytes);
    if o.Pass? {
      CapacityUpdate(l.backends, b, m.backends[b]);
      ReservedTerm(l.backends, b);
      TotalFollows(l.totalCommitted, SumCommitted(l.backends), bytes);
      SameReservations(l, m);
    }
  }

  /** add_committed does not look at the capacity; below 2^64 the accounts still balance. */
  lemma AddCommittedKeeps(l: Ledger, b: Id, bytes: U64)
    requires Balanced(l)
    requires b in l.backends ==> l.backends[b].reserved + l.backends[b].committed + bytes < TWO_64
    ensures Balanced(AddCommitted(l, b, bytes).1)
  {
    hide ActiveOn, SumReserved, SumCommitted;
    var (o, m) := AddCommitted(l, b, bytes);
    if o.Pass? {
      CapacityUpdate(l.backends, b, m.backends[b]);
      TotalFollows(l.totalCommitted, SumCommitted(l.backends), bytes);
      SameReservations(l, m);
    }
  }

  /** What the ledger answers: a reservation is committed once and released once, under its own generation, and not both. */
  lemma LedgerAnswers(l: Ledger, id: Id, generation: nat, placement: Id)
    requires Balanced(l)
    ensures Commit(l, id, placement).0 ==
      if id !in l.reservations then Fail(NotFound) else if l.reservations[id].state != ACTIVE then Fail(InvalidState) else Pass
    ensures Release(l, id, generation).0 ==
      if id !in l.reservations then Fail(StaleReservation)
      else if l.reservations[id].state == RELEASED then Fail(DuplicateReservation)
      else if l.reservations[id].generation != generation then Fail(StaleReservation)
      else if l.reservations[id].state == COMMITTED then Fail(InvalidState)
      else Pass
  {
    hide ActiveOn, SumReserved, SumCommitted;
    if id in l.reservations {
      assert ValidReservation(l, id);
      if l.reservations[id].state == ACTIVE {
        ActiveTermBound(l.reservations, id, l.reservations[id].backend);
      }
    }
  }

  /** The history of a reservation: taken for an owner, committed to a placement. */
  lemma ReservationRecord(l: Ledger, b: Id, bytes: U64, generation: nat, owner: Id, placement: Id)
    requires Balanced(l) && Reserve(l, b, bytes, generation, owner).0.Ok?
    ensures var (r, m) := Reserve(l, b, bytes, generation, owner);
      var n := Commit(m, r.value.id, placement).1;
      && r.value.id == l.nextId && m.nextId == l.nextId + 1
      && m.reservations == l.reservations[l.nextId := Reservation(l.nextId, generation, b, bytes, ACTIVE, owner, 0, false)]
      && n.reservations == l.reservations[l.nextId := Reservation(l.nextId, generation, b, bytes, COMMITTED, owner, placement, true)]
  {
    hide Balanced, Reserve, Commit, Add64;
    ReserveKeeps(l, b, bytes, generation, owner);
    Reserved(l, b, bytes, generation, owner);
    var (r, m) := Reserve(l, b, bytes, generation, owner);
    CommitKeeps(m, r.value.id, placement);
    Committed(m, r.value.id, placement);
  }

  lemma Reserved(l: Ledger, b: Id, bytes: U64, generation: nat, owner: Id)
    requires Reserve(l, b, bytes, generation, owner).0.Ok?
    ensures var (r, m) := Reserve(l, b, bytes, generation, owner);
      && r.value == Reservation(l.nextId, generation, b, bytes, ACTIVE, owner, 0, false)
      && m.reservations == l.reservations[l.nextId := r.value] && m.nextId == l.nextId + 1
  {}

  lemma Committed(l: Ledger, id: Id, placement: Id)
    requires Commit(l, id, placement).0.Pass?
    ensures id in l.reservations
    ensures Commit(l, id, placement).1.reservations
         == l.reservations[id := l.reservations[id].(state := COMMITTED, committed := true, placement := placement)]
  {}

  /** Without an allowance what is free is what can be reserved. */
  lemma FreeIsReservable(l: Ledger, b: Id, bytes: U64, generation: nat, owner: Id)
    requires Balanced(l) && l.allowance == 0 && b in l.backends
    ensures Reserve(l, b, bytes, generation, owner).0.Ok? <==> 0 < bytes <= Free(l, b)
  {
    hide ActiveOn, SumReserved, SumCommitted;
    ReserveFits(l, b, bytes, generation, owner);
  }

  /** Refreshing the free bytes of a backend moves its limit there, and the limit of no other. */
  lemma RefreshDecides(l: Ledger, b: Id, free: U64, other: Id, bytes: U64, generation: nat, owner: Id)
    requires Balanced(l) && b in l.backends && other in l.backends
    ensures var m := RefreshFree(l, b, free);
      && Balanced(m)
      && (Reserve(m, other, bytes, generation, owner).0.Ok? <==>
            bytes > 0 && l.backends[other].reserved + l.backends[other].committed + bytes
              <= Add64(if other == b then free else l.backends[other].free, l.allowance))
  {
    hide Reserve, Balanced, Add64, RefreshFree;
    RefreshFreeKeeps(l, b, free);
    Refreshed(l, b, free);
    ReserveFits(RefreshFree(l, b, free), other, bytes, generation, owner);
  }

  lemma Refreshed(l: Ledger, b: Id, free: U64)
    requires b in l.backends
    ensures RefreshFree(l, b, free) == l.(backends := l.backends[b := l.backends[b].(free := free)])
  {}

  lemma SameReservations(l: Ledger, m: Ledger)
    requires m.reservations == l.reservations && m.nextId == l.nextId && l.backends.Keys <= m.backends.Keys
    ensures forall id <- l.reservations :: ValidReservation(l, id) ==> ValidReservation(m, id)
  {}

  lemma RegisterKeeps(l: Ledger, b: Id, cap: Capacity)
    requires Balanced(l) && b !in l.backends && cap.reserved == 0 && cap.committed == 0
    ensures Balanced(Register(l, b, cap)) && (WithinLimits(l) ==> WithinLimits(Register(l, b, cap)))
  {
    hide ActiveOn, SumReserved, SumCommitted;
    CapacityUpdate(l.backends, b, cap);
    SameReservations(l, Register(l, b, cap));
    NothingActive(l, b);
  }

  lemma NothingActive(l: Ledger, b: Id)
    requires b !in l.backends && forall id <- l.reservations :: ValidReservation(l, id)
    ensures ActiveOn(l.reservations, b) == 0
  {
    hide Sum;
    forall id | id in l.reservations
      ensures ActiveTerm(l.reservations[id], b) == 0
    {
      assert ValidReservation(l, id);
    }
    SumOfZeros(ActiveTerms(l.reservations, b));
  }

  lemma RefreshFreeKeeps(l: Ledger, b: Id, free: U64)
    requires Balanced(l)
    ensures Balanced(RefreshFree(l, b, free))
  {
    hide ActiveOn, SumReserved, SumCommitted;
    var m := RefreshFree(l, b, free);
    if b in l.backends {
      CapacityUpdate(l.backends, b, m.backends[b]);
      SameReservations(l, m);
    }
  }

  // ----- Runs: any interleaving of any threads' calls -----

  datatype Op =
    | OpRegister(backend: Id, cap: Capacity)
    | OpRefresh(backend: Id, free: U64)
    | OpReserve(backend: Id, bytes: U64, generation: nat, owner: Id)
    | OpCommit(id: Id, placement: Id)
    | OpRelease(id: Id, generation: nat)
    | OpAdd(backend: Id, bytes: U64)
    | OpRemove(backend: Id, bytes: U64)

  function Apply(l: Ledger, op: Op): Ledger {
    match op
    case OpRegister(b, cap) => Register(l, b, cap)
    case OpRefresh(b, free) => RefreshFree(l, b, free)
    case OpReserve(b, bytes, generation, owner) => Reserve(l, b, bytes, generation, owner).1
    case OpCommit(id, placement) => Commit(l, id, placement).1
    case OpRelease(id, generation) => Release(l, id, generation).1
    case OpAdd(b, bytes) => AddCommitted(l, b, bytes).1
    case OpRemove(b, bytes) => RemoveCommitted(l, b, bytes).1
  }

  function Run(l: Ledger, ops: seq<Op>): Ledger
    decreases |ops|
  {
    if ops == [] then l else Run(Apply(l, ops[0]), ops[1..])
  }

  /** Backends are registered once and empty; add_committed stays within 64 bits. */
  ghost predicate Proper(l: Ledger, op: Op) {
    match op
    case OpRegister(b, cap) => b !in l.backends && cap.reserved == 0 && cap.committed == 0
    case OpAdd(b, bytes) => b in l.backends ==> l.backends[b].reserved + l.backends[b].committed + bytes < TWO_64
    case _ => true
  }

  ghost predicate ProperRun(l: Ledger, ops: seq<Op>)
    decreases |ops|
  {
    ops == [] || (Proper(l, ops[0]) && ProperRun(Apply(l, ops[0]), ops[1..]))
  }

  lemma ApplyKeeps(l: Ledger, op: Op)
    requires Balanced(l) && Proper(l, op)
    ensures Balanced(Apply(l, op))
    ensures WithinLimits(l) && !op.OpRefresh? && !op.OpAdd? ==> WithinLimits(Apply(l, op))
  {
    hide Balanced, Register, RefreshFree, Reserve, Commit, Release, AddCommitted, RemoveCommitted;
    match op
    case OpRegister(b, cap) => RegisterKeeps(l, b, cap);
    case OpRefresh(b, free) => RefreshFreeKeeps(l, b, free);
    case OpReserve(b, bytes, generation, owner) => ReserveKeeps(l, b, bytes, generation, owner);
    case OpCommit(id, placement) => CommitKeeps(l, id, placement);
    case OpRelease(id, generation) => ReleaseKeeps(l, id, generation);
    case OpAdd(b, bytes) => AddCommittedKeeps(l, b, bytes);
    case OpRemove(b, bytes) => RemoveCommittedKeeps(l, b, bytes);
  }

  lemma EmptyBalanced(allowance: U64)
    ensures Balanced(Empty(allowance)) && WithinLimits(Empty(allowance))
  {
    SumOfZeros<Id>(map[]);
  }

  /** After any schedule: the accounts balance, and unless free space was refreshed or bytes were
      added unreserved, nothing is overcommitted. */
  lemma {:induction false} RunBalanced(l: Ledger, ops: seq<Op>)
    requires Balanced(l) && ProperRun(l, ops)
    ensures Balanced(Run(l, ops))
    ensures WithinLimits(l) && (forall op <- ops :: !op.OpRefresh? && !op.OpAdd?) ==> WithinLimits(Run(l, ops))
    decreases |ops|
  {
    hide Balanced, WithinLimits, Apply, Proper;
    if ops != [] {
      ApplyKeeps(l, ops[0]);
      RunBalanced(Apply(l, ops[0]), ops[1..]);
    }
  }

  /** What one step may do to a reservation that exists: nothing, or take it out of ACTIVE. */
  lemma ReservationStep(l: Ledger, op: Op, id: Id)
    requires Balanced(l) && id in l.reservations
    ensures id in Apply(l, op).reservations
    ensures var (before, after) := (l.reservations[id], Apply(l, op).reservations[id]);
      before == after || (before.state == ACTIVE && (after.state == COMMITTED || after.state == RELEASED)
                          && after.bytes == before.bytes && after.backend == before.backend)
  {
    hide ActiveOn, SumReserved, SumCommitted, Headroom;
    assert ValidReservation(l, id);
    assert l.nextId in l.reservations ==> ValidReservation(l, l.nextId);
  }

  /** A reservation leaves ACTIVE at most once: afterwards its record never changes again. */
  lemma {:induction false} LeavesActiveOnce(l: Ledger, ops: seq<Op>, id: Id)
    requires Balanced(l) && ProperRun(l, ops) && id in l.reservations && l.reservations[id].state != ACTIVE
    ensures id in Run(l, ops).reservations && Run(l, ops).reservations[id] == l.reservations[id]
    decreases |ops|
  {
    hide Balanced, Apply, Proper;
    if ops != [] {
      ReservationStep(l, ops[0], id);
      ApplyKeeps(l, ops[0]);
      LeavesActiveOnce(Apply(l, ops[0]), ops[1..], id);
    }
  }
}
