/** src/capacity.cpp, lines 171-213: the RAII guard over a reservation. */
module Guards {
  import opened Bytes
  import opened Status
  import opened Model
  import opened Sums
  import opened Ledger

  /** The fields of a guard; `bound` says whether it has a ledger. */
  datatype Guard = Guard(bound: bool, res: Reservation, armed: bool) {
    predicate Owns() {
      bound && armed && res.state == ACTIVE
    }

    function Disarmed(): Guard {
      this.(armed := false)
    }
  }

  /** What the destructor and move assignment do to the ledger. */
  function Dropped(l: Ledger, g: Guard): Ledger {
    if g.Owns() then Release(l, g.res.id, g.res.generation).1 else l
  }

  function GuardCommit(l: Ledger, g: Guard, placement: Id): (Outcome, Ledger, Guard) {
    if !g.bound then (Fail(InvalidState), l, g)
    else
      var (o, m) := Commit(l, g.res.id, placement);
      (o, m, if o.Pass? then g.Disarmed() else g)
  }

  function GuardRelease(l: Ledger, g: Guard): (Outcome, Ledger, Guard) {
    if !g.bound then (Fail(InvalidState), l, g)
    else
      var (o, m) := Release(l, g.res.id, g.res.generation);
      (o, m, if o.Pass? then g.Disarmed() else g)
  }

  class ReservationGuard {
    var ledger: ReservationLedger?
    var res: Reservation
    var armed: bool

    function Abs(): Guard
      reads this
    {
      Guard(ledger != null, res, armed)
    }

    constructor (ledger: ReservationLedger?, res: Reservation, armed: bool)
      ensures this.ledger == ledger && Abs() == Guard(ledger != null, res, armed)
    {
      this.ledger, this.res, this.armed := ledger, res, armed;
    }

    /** The destructor. */
    method Destroy()
      modifies ledger
      ensures ledger != null ==> ledger.Abs() == Dropped(old(ledger.Abs()), Abs())
    {
      if ledger != null && armed && res.state == ACTIVE {
        var _ := ledger.ReleaseReservation(res.id, res.generation);
      }
    }

    /** Move construction. */
    constructor Moved(other: ReservationGuard)
      modifies other
      ensures ledger == old(other.ledger) == other.ledger
      ensures Abs() == old(other.Abs()) && other.Abs() == old(other.Abs()).Disarmed()
    {
      ledger, res, armed := other.ledger, other.res, other.armed;
      new;
      other.armed := false;
    }

    /** Move assignment; onto itself it does nothing. */
    method Assign(other: ReservationGuard)
      modifies this, other, ledger
      ensures this == other ==> ledger == old(ledger) && Abs() == old(Abs())
      ensures this == other && ledger != null ==> ledger.Abs() == old(ledger.Abs())
      ensures this != other ==> ledger == old(other.ledger) == other.ledger
      ensures this != other ==> Abs() == old(other.Abs()) && other.Abs() == old(other.Abs()).Disarmed()
      ensures this != other && old(ledger) != null ==>
        old(ledger).Abs() == Dropped(old(ledger.Abs()), old(Abs()))
    {
      if this != other {
        if ledger != null && armed && res.state == ACTIVE {
          var _ := ledger.ReleaseReservation(res.id, res.generation);
        }
        ledger := other.ledger;
        res := other.res;
        armed := other.armed;
        other.armed := false;
      }
    }

    method CommitTo(placement: Id) returns (o: Outcome)
      modifies this, ledger
      ensures ledger == old(ledger)
      ensures ledger == null ==> o == Fail(InvalidState) && Abs() == old(Abs())
      ensures ledger != null ==> (o, ledger.Abs(), Abs()) == GuardCommit(old(ledger.Abs()), old(Abs()), placement)
    {
      if ledger == null { return Fail(InvalidState); }
      o := ledger.CommitReservation(res.id, placement);
      if o.Pass? { armed := false; }
    }

    method ReleaseNow() returns (o: Outcome)
      modifies this, ledger
      ensures ledger == old(ledger)
      ensures ledger == null ==> o == Fail(InvalidState) && Abs() == old(Abs())
      ensures ledger != null ==> (o, ledger.Abs(), Abs()) == GuardRelease(old(ledger.Abs()), old(Abs()))
    {
      if ledger == null { return Fail(InvalidState); }
      o := ledger.ReleaseReservation(res.id, res.generation);
      if o.Pass? { armed := false; }
    }
  }

  // ----- Programs that hold their reservations in guards -----

  /** One ledger and the guards alive over it, by name. */
  datatype System = System(ledger: Ledger, guards: map<Id, Guard>)

  datatype GuardOp =
    | GAcquire(g: Id, backend: Id, bytes: U64, generation: nat, owner: Id)
    | GDefault(g: Id, res: Reservation)
    | GMove(g: Id, source: Id)
    | GAssign(g: Id, source: Id)
    | GCommit(g: Id, placement: Id)
    | GRelease(g: Id)
    | GDestroy(g: Id)
    /** Any other call on the ledger, from any thread. */
    | GLedger(op: Op)

  /** New guards take unused names, the others name live guards; reservations are made through guards. */
  ghost predicate Lawful(s: System, op: GuardOp) {
    match op
    case GAcquire(g, _, _, _, _) => g !in s.guards
    case GDefault(g, _) => g !in s.guards
    case GMove(g, source) => g !in s.guards && source in s.guards
    case GAssign(g, source) => g in s.guards && source in s.guards
    case GCommit(g, _) => g in s.guards
    case GRelease(g) => g in s.guards
    case GDestroy(g) => g in s.guards
    case GLedger(op) => Proper(s.ledger, op) && !op.OpReserve?
  }

  function GuardStep(s: System, op: GuardOp): System
    requires Lawful(s, op)
  {
    match op
    case GAcquire(g, b, bytes, generation, owner) =>
      var (r, l) := Reserve(s.ledger, b, bytes, generation, owner);
      if r.Ok? then System(l, s.guards[g := Guard(true, r.value, true)]) else System(l, s.guards)
    case GDefault(g, res) => s.(guards := s.guards[g := Guard(false, res, false)])
    case GMove(g, source) =>
      s.(guards := s.guards[g := s.guards[source]][source := s.guards[source].Disarmed()])
    case GAssign(g, source) =>
      if g == source then s
      else System(Dropped(s.ledger, s.guards[g]),
                  s.guards[g := s.guards[source]][source := s.guards[source].Disarmed()])
    case GCommit(g, placement) =>
      var (o, l, h) := GuardCommit(s.ledger, s.guards[g], placement);
      System(l, s.guards[g := h])
    case GRelease(g) =>
      var (o, l, h) := GuardRelease(s.ledger, s.guards[g]);
      System(l, s.guards[g := h])
    case GDestroy(g) => System(Dropped(s.ledger, s.guards[g]), s.guards - {g})
    case GLedger(op) => s.(ledger := Apply(s.ledger, op))
  }

  ghost predicate Armed(s: System, g: Id, id: Id) {
    g in s.guards && s.guards[g].Owns() && s.guards[g].res.id == id
  }

  /** A guard remembers the reservation it was given. */
  ghost predicate Faithful(s: System, g: Id)
    requires g in s.guards
  {
    var h := s.guards[g];
    h.bound ==> h.res.id in s.ledger.reservations
                && s.ledger.reservations[h.res.id].generation == h.res.generation
  }

  /** Every ACTIVE reservation has exactly one armed owner. */
  ghost predicate Owned(s: System) {
    && Balanced(s.ledger)
    && (forall g <- s.guards :: Faithful(s, g))
    && (forall id <- s.ledger.reservations :: s.ledger.reservations[id].state == ACTIVE ==> exists g :: Armed(s, g, id))
    && (forall g, h, id :: Armed(s, g, id) && Armed(s, h, id) ==> g == h)
  }

  /** A change of ledger that creates nothing and only moves reservations out of ACTIVE. */
  ghost predicate Shrinks(l: Ledger, m: Ledger) {
    l.reservations.Keys == m.reservations.Keys
    && forall id <- l.reservations :: l.reservations[id].generation == m.reservations[id].generation
         && (m.reservations[id].state == ACTIVE ==> l.reservations[id].state == ACTIVE)
  }

  lemma DroppedShrinks(l: Ledger, g: Guard)
    requires Balanced(l)
    requires g.bound ==> g.res.id in l.reservations && l.reservations[g.res.id].generation == g.res.generation
    ensures Balanced(Dropped(l, g)) && Shrinks(l, Dropped(l, g))
    ensures g.Owns() ==> Dropped(l, g).reservations[g.res.id].state != ACTIVE
    ensures forall id <- l.reservations :: (g.Owns() ==> id != g.res.id) ==>
      Dropped(l, g).reservations[id] == l.reservations[id]
  {
    hide ActiveOn, SumReserved, SumCommitted;
    if g.Owns() {
      ReleaseKeeps(l, g.res.id, g.res.generation);
    }
  }

  lemma AcquireKeeps(s: System, g: Id, b: Id, bytes: U64, generation: nat, owner: Id)
    requires Owned(s) && g !in s.guards
    ensures Owned(GuardStep(s, GAcquire(g, b, bytes, generation, owner)))
  {
    hide Balanced;
    var t := GuardStep(s, GAcquire(g, b, bytes, generation, owner));
    ReserveKeeps(s.ledger, b, bytes, generation, owner);
    FreshId(s.ledger);
    var r := Reserve(s.ledger, b, bytes, generation, owner).0;
    if r.Ok? {
      assert Armed(t, g, s.ledger.nextId);
      assert forall h, id :: Armed(s, h, id) ==> Armed(t, h, id);
      assert forall h, id :: Armed(t, h, id) && h != g ==> Armed(s, h, id);
      forall h | h in t.guards
        ensures Faithful(t, h)
      {
        assert h != g ==> Faithful(s, h);
      }
    } else {
      assert t == s;
    }
  }

  lemma FreshId(l: Ledger)
    requires Balanced(l)
    ensures l.nextId !in l.reservations
  {
    hide ActiveOn, SumReserved, SumCommitted;
    assert l.nextId in l.reservations ==> ValidReservation(l, l.nextId);
  }

  /** A new unarmed guard owns nothing. */
  lemma DefaultKeeps(s: System, g: Id, res: Reservation)
    requires Owned(s) && g !in s.guards
    ensures Owned(GuardStep(s, GDefault(g, res)))
  {
    hide Balanced;
    var t := GuardStep(s, GDefault(g, res));
    assert forall h, id :: Armed(t, h, id) <==> Armed(s, h, id);
    assert forall h <- s.guards :: Faithful(s, h);
  }

  /** Moving passes ownership on and leaves the source with none; the target held none, or its own
      reservation has been released. */
  lemma MoveKeeps(s: System, g: Id, source: Id, t: System)
    requires Owned(s) && source in s.guards && g != source
    requires Balanced(t.ledger) && Shrinks(s.ledger, t.ledger)
    requires t.guards == s.guards[g := s.guards[source]][source := s.guards[source].Disarmed()]
    requires forall id :: Armed(s, g, id) ==> t.ledger.reservations[id].state != ACTIVE
    ensures Owned(t)
  {
    hide Balanced;
    forall h | h in t.guards
      ensures Faithful(t, h)
    {
      assert Faithful(s, if h == g then source else h);
    }
    assert forall h, id :: h != g && h != source ==> (Armed(t, h, id) <==> Armed(s, h, id));
    assert forall id :: Armed(t, g, id) <==> Armed(s, source, id);
    assert forall id :: !Armed(t, source, id);
    forall id | id in t.ledger.reservations && t.ledger.reservations[id].state == ACTIVE
      ensures exists h :: Armed(t, h, id)
    {
      var h :| Armed(s, h, id);
      assert Armed(t, if h == source then g else h, id);
    }
  }

  /** A guard that gives up its reservation leaves no ACTIVE reservation behind. */
  lemma DisarmKeeps(s: System, g: Id, t: System)
    requires Owned(s) && g in s.guards
    requires Balanced(t.ledger) && Shrinks(s.ledger, t.ledger)
    requires t.guards == s.guards[g := s.guards[g].Disarmed()] || t.guards == s.guards - {g}
    requires forall id :: Armed(s, g, id) ==> t.ledger.reservations[id].state != ACTIVE
    ensures Owned(t)
  {
    hide Balanced;
    forall h | h in t.guards
      ensures Faithful(t, h)
    {
      assert Faithful(s, h);
    }
    assert forall h, id :: Armed(t, h, id) ==> h != g && Armed(s, h, id);
    assert forall h, id :: Armed(s, h, id) && h != g ==> Armed(t, h, id);
  }

  lemma LedgerKeeps(s: System, op: Op)
    requires Owned(s) && Proper(s.ledger, op) && !op.OpReserve?
    ensures Owned(s.(ledger := Apply(s.ledger, op))) && Shrinks(s.ledger, Apply(s.ledger, op))
  {
    hide Balanced, WithinLimits, Apply, Proper;
    var t := s.(ledger := Apply(s.ledger, op));
    ApplyKeeps(s.ledger, op);
    ApplyShrinks(s.ledger, op);
    forall h | h in t.guards
      ensures Faithful(t, h)
    {
      assert Faithful(s, h);
    }
    assert forall h, id :: Armed(t, h, id) <==> Armed(s, h, id);
  }

  lemma ApplyShrinks(l: Ledger, op: Op)
    requires Balanced(l) && !op.OpReserve?
    ensures Shrinks(l, Apply(l, op))
  {
    hide ActiveOn, SumReserved, SumCommitted;
  }

  lemma CommitShrinks(l: Ledger, g: Guard, placement: Id)
    requires Balanced(l) && g.bound && g.res.id in l.reservations
    ensures var (o, m, h) := GuardCommit(l, g, placement);
      Balanced(m) && Shrinks(l, m)
      && (if o.Pass? then h == g.Disarmed() && m.reservations[g.res.id].state != ACTIVE else h == g && m == l)
  {
    hide Balanced, WithinLimits, Add64, Sub64;
    CommitKeeps(l, g.res.id, placement);
  }

  lemma ReleaseShrinks(l: Ledger, g: Guard)
    requires Balanced(l) && g.bound && g.res.id in l.reservations
    ensures var (o, m, h) := GuardRelease(l, g);
      Balanced(m) && Shrinks(l, m)
      && (if o.Pass? then h == g.Disarmed() && m.reservations[g.res.id].state != ACTIVE else h == g && m == l)
  {
    hide Balanced, WithinLimits, Add64, Sub64;
    ReleaseKeeps(l, g.res.id, g.res.generation);
  }

  /** Every step keeps exactly one armed owner for each ACTIVE reservation. */
  lemma GuardStepKeeps(s: System, op: GuardOp)
    requires Owned(s) && Lawful(s, op)
    ensures Owned(GuardStep(s, op))
  {
    hide Balanced, Dropped, GuardCommit, GuardRelease, Apply, Proper, Reserve;
    var t := GuardStep(s, op);
    match op
    case GAcquire(g, b, bytes, generation, owner) => AcquireKeeps(s, g, b, bytes, generation, owner);
    case GDefault(g, res) => DefaultKeeps(s, g, res);
    case GMove(g, source) =>
      MoveKeeps(s, g, source, t);
    case GAssign(g, source) =>
      if g != source {
        assert Faithful(s, g);
        DroppedShrinks(s.ledger, s.guards[g]);
        MoveKeeps(s, g, source, t);
      }
    case GCommit(g, placement) =>
      assert Faithful(s, g);
      if s.guards[g].bound {
        CommitShrinks(s.ledger, s.guards[g], placement);
        SettleKeeps(s, g, t, GuardCommit(s.ledger, s.guards[g], placement).0);
      } else {
        UnboundKeeps(s, g, t, placement);
      }
    case GRelease(g) =>
      assert Faithful(s, g);
      if s.guards[g].bound {
        ReleaseShrinks(s.ledger, s.guards[g]);
        SettleKeeps(s, g, t, GuardRelease(s.ledger, s.guards[g]).0);
      } else {
        UnboundKeeps(s, g, t, 0);
      }
    case GDestroy(g) =>
      assert Faithful(s, g);
      DroppedShrinks(s.ledger, s.guards[g]);
      DisarmKeeps(s, g, t);
    case GLedger(op) => LedgerKeeps(s, op);
  }

  lemma UnboundKeeps(s: System, g: Id, t: System, placement: Id)
    requires g in s.guards && !s.guards[g].bound
    ensures s.(guards := s.guards[g := s.guards[g]]) == s
    ensures GuardCommit(s.ledger, s.guards[g], placement) == (Fail(InvalidState), s.ledger, s.guards[g])
    ensures GuardRelease(s.ledger, s.guards[g]) == (Fail(InvalidState), s.ledger, s.guards[g])
  {
    assert s.guards[g := s.guards[g]] == s.guards;
  }

  lemma SettleKeeps(s: System, g: Id, t: System, o: Outcome)
    requires Owned(s) && g in s.guards
    requires Balanced(t.ledger) && Shrinks(s.ledger, t.ledger) && s.guards[g].res.id in s.ledger.reservations
    requires if o.Pass?
             then t.guards == s.guards[g := s.guards[g].Disarmed()]
                  && t.ledger.reservations[s.guards[g].res.id].state != ACTIVE
             else t.guards == s.guards[g := s.guards[g]] && t.ledger == s.ledger
    ensures Owned(t)
  {
    hide Balanced;
    if o.Pass? {
      DisarmKeeps(s, g, t);
    } else {
      assert t.guards == s.guards;
    }
  }

  function GuardRun(s: System, ops: seq<GuardOp>): System
    requires LawfulRun(s, ops)
    decreases |ops|
  {
    if ops == [] then s else GuardRun(GuardStep(s, ops[0]), ops[1..])
  }

  ghost predicate LawfulRun(s: System, ops: seq<GuardOp>)
    decreases |ops|
  {
    ops == [] || (Lawful(s, ops[0]) && LawfulRun(GuardStep(s, ops[0]), ops[1..]))
  }

  lemma {:induction false} GuardRunKeeps(s: System, ops: seq<GuardOp>)
    requires Owned(s) && LawfulRun(s, ops)
    ensures Owned(GuardRun(s, ops))
    decreases |ops|
  {
    hide Owned, Lawful, GuardStep;
    if ops != [] {
      GuardStepKeeps(s, ops[0]);
      GuardRunKeeps(GuardStep(s, ops[0]), ops[1..]);
    }
  }

  /** Once every guard is gone no capacity is held: a failed publication cannot leak a reservation. */
  lemma NothingLeaks(allowance: U64, ops: seq<GuardOp>)
    requires LawfulRun(System(Empty(allowance), map[]), ops)
    requires GuardRun(System(Empty(allowance), map[]), ops).guards == map[]
    ensures var l := GuardRun(System(Empty(allowance), map[]), ops).ledger;
      (forall id <- l.reservations :: l.reservations[id].state != ACTIVE)
      && (forall b <- l.backends :: l.backends[b].reserved == 0) && l.totalReserved == 0
  {
    var s := System(Empty(allowance), map[]);
    EmptyBalanced(allowance);
    assert Owned(s);
    GuardRunKeeps(s, ops);
    var t := GuardRun(s, ops);
    hide GuardRun, LawfulRun;
    assert forall g, id :: !Armed(t, g, id);
    NoActiveNoReserved(t.ledger);
  }

  lemma NoActiveNoReserved(l: Ledger)
    requires Balanced(l) && forall id <- l.reservations :: l.reservations[id].state != ACTIVE
    ensures (forall b <- l.backends :: l.backends[b].reserved == 0) && l.totalReserved == 0
  {
    forall b | b in l.backends
      ensures l.backends[b].reserved == 0
    {
      SumOfZeros(ActiveTerms(l.reservations, b));
    }
    SumOfZeros(ReservedTerms(l.backends));
  }
}
