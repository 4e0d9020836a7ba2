/** tools/storage_fabric_coordinator.cpp: authority fencing. Each operation runs under one lock, so the requests
    of all connections form one sequence. */
module Coordinator {
  import opened Status
  import opened Model
  import opened AuthorityOrder

  datatype State = State(authority: Authority, liveBoots: seq<Id>, nextDispatch: nat)

  /** The baseline authority of an epoch: below every envelope a worker can carry in it. */
  function Baseline(epoch: nat): Authority {
    Authority(epoch, 0, 0, 0, ORIGIN_COORDINATOR)
  }

  /** Below every envelope of the epoch that names a boot or a generation, above every one of the epochs before. */
  lemma BaselineBelow(epoch: nat, a: Authority)
    ensures Newer(a, Baseline(epoch)) <==> a.epoch > epoch || (a.epoch == epoch && (a.boot > 0 || a.generation > 0))
    ensures Baseline(epoch).worker == 0 && Baseline(epoch).origin == 3
  {}

  function Erase(boots: seq<Id>, boot: Id): seq<Id> {
    if boots == [] then []
    else if boots[0] == boot then boots[1..]
    else [boots[0]] + Erase(boots[1..], boot)
  }

  /** Requests, with what they meet outside the lock: the boot nonce drawn for a connection, and whether
      defining and publishing an object succeeded. */
  datatype Request =
    | Hello(boot: Id)
    | Create(incoming: Authority, published: bool)
    | Commit(incoming: Authority)
    | Loss(boot: Id)

  predicate Accepted(s: State, r: Request) {
    match r
    case Create(incoming, published) => Newer(incoming, s.authority) && published
    case Commit(incoming) => Newer(incoming, s.authority)
    case _ => false
  }

  function Step(s: State, r: Request): State {
    match r
    case Hello(boot) => s.(liveBoots := s.liveBoots + [boot])
    case Create(incoming, published) => if Accepted(s, r) then s.(authority := incoming) else s
    case Commit(incoming) =>
      if Accepted(s, r) then s.(authority := incoming, nextDispatch := s.nextDispatch + 1) else s
    case Loss(boot) =>
      s.(liveBoots := Erase(s.liveBoots, boot), authority := Baseline(s.authority.epoch + 1))
  }

  class CoordinatorState {
    var authority: Authority
    var liveBoots: seq<Id>
    var dispatchCounter: nat

    function Abs(): State
      reads this
    {
      State(authority, liveBoots, dispatchCounter)
    }

    constructor (authority: Authority)
      ensures Abs() == State(authority, [], 1)
    {
      this.authority, liveBoots, dispatchCounter := authority, [], 1;
    }

    /** The HELLO exchange: the reply carries the live epoch and a fresh boot. */
    method OnHello(boot: Id) returns (epoch: nat)
      modifies this
      ensures Abs() == Step(old(Abs()), Hello(boot)) && epoch == authority.epoch
    {
      epoch := authority.epoch;
      liveBoots := liveBoots + [boot];
    }

    method OnCreate(incoming: Authority, published: bool) returns (o: Outcome)
      modifies this
      ensures Abs() == Step(old(Abs()), Create(incoming, published))
      ensures o.Pass? <==> Accepted(old(Abs()), Create(incoming, published))
    {
      if Compare(incoming, authority) <= 0 { return Fail(StaleAuthority); }
      if !published { return Fail(Internal); }
      authority := incoming;
      return Pass;
    }

    method OnCommit(incoming: Authority) returns (r: Result<nat>)
      modifies this
      ensures Abs() == Step(old(Abs()), Commit(incoming))
      ensures r.Ok? <==> Accepted(old(Abs()), Commit(incoming))
      ensures r.Ok? ==> r.value == old(dispatchCounter)
    {
      if Compare(incoming, authority) <= 0 { return Err(StaleAuthority); }
      var id := dispatchCounter;
      dispatchCounter := dispatchCounter + 1;
      authority := incoming;
      return Ok(id);
    }

    /** on_worker_loss: the epoch advances and the baseline is reset. */
    method OnWorkerLoss(boot: Id)
      modifies this
      ensures Abs() == Step(old(Abs()), Loss(boot))
    {
      var kept := [];
      var i := 0;
      while i < |liveBoots| && liveBoots[i] != boot
        invariant 0 <= i <= |liveBoots|
        invariant liveBoots == old(liveBoots) && authority == old(authority) && dispatchCounter == old(dispatchCounter)
        invariant kept + Erase(liveBoots[i..], boot) == Erase(liveBoots, boot)
      {
        kept := kept + [liveBoots[i]];
        assert liveBoots[i..][1..] == liveBoots[i + 1..];
        i := i + 1;
      }
      if i < |liveBoots| {
        assert liveBoots[i..][1..] == liveBoots[i + 1..];
        liveBoots := kept + liveBoots[i + 1..];
      } else {
        liveBoots := kept;
      }
      authority := authority.(epoch := authority.epoch + 1);
      authority := Baseline(authority.epoch);
    }
  }

  // ----- Runs -----

  function Run(s: State, rs: seq<Request>): State
    decreases |rs|
  {
    if rs == [] then s else Run(Step(s, rs[0]), rs[1..])
  }

  /** The envelopes of the mutations accepted during a run, in order. */
  function Log(s: State, rs: seq<Request>): seq<Authority>
    decreases |rs|
  {
    if rs == [] then []
    else (if Accepted(s, rs[0]) then [rs[0].incoming] else []) + Log(Step(s, rs[0]), rs[1..])
  }

  lemma StepAdvances(s: State, r: Request)
    ensures Step(s, r).authority == s.authority || Newer(Step(s, r).authority, s.authority)
    ensures Accepted(s, r) ==> Step(s, r).authority == r.incoming && Newer(r.incoming, s.authority)
  {}

  /** Everything accepted is newer than the authority the run started from, and newer than what was
      accepted before it. */
  lemma {:induction false} LogIncreases(s: State, rs: seq<Request>)
    ensures forall i :: 0 <= i < |Log(s, rs)| ==> Newer(Log(s, rs)[i], s.authority)
    ensures forall i, j :: 0 <= i < j < |Log(s, rs)| ==> Newer(Log(s, rs)[j], Log(s, rs)[i])
    decreases |rs|
  {
    if rs != [] {
      var t := Step(s, rs[0]);
      var head := if Accepted(s, rs[0]) then [rs[0].incoming] else [];
      var rest := Log(t, rs[1..]);
      LogIncreases(t, rs[1..]);
      StepAdvances(s, rs[0]);
      hide Newer, Accepted, Step;
      assert Log(s, rs) == head + rest;
      forall i | 0 <= i < |rest|
        ensures Newer(rest[i], s.authority)
      {
        NewerOrder(rest[i], t.authority, s.authority);
      }
      forall i | |head| <= i < |Log(s, rs)|
        ensures Log(s, rs)[i] == rest[i - |head|]
      {}
    }
  }

  /** No envelope is accepted twice, and a session's mutations are one block of the log. */
  lemma Fencing(s: State, rs: seq<Request>, i: nat, j: nat)
    requires i < j < |Log(s, rs)|
    ensures Log(s, rs)[i] != Log(s, rs)[j]
    ensures forall k :: i < k < j && SameSession(Log(s, rs)[i], Log(s, rs)[j]) ==> SameSession(Log(s, rs)[i], Log(s, rs)[k])
  {
    LogIncreases(s, rs);
    var log := Log(s, rs);
    NewerOrder(log[i], log[j], log[i]);
    forall k | i < k < j && SameSession(log[i], log[j])
      ensures SameSession(log[i], log[k])
    {
      NewerOrder(log[i], log[k], log[j]);
    }
  }

  /** After a worker loss nothing from the epoch it ended, or an earlier one, is ever accepted. */
  lemma LossFences(s: State, boot: Id, rs: seq<Request>, i: nat)
    requires i < |Log(Step(s, Loss(boot)), rs)|
    ensures Log(Step(s, Loss(boot)), rs)[i].epoch > s.authority.epoch
  {
    LogIncreases(Step(s, Loss(boot)), rs);
  }

  /** The authority only ever moves forward. */
  lemma {:induction false} RunAdvances(s: State, rs: seq<Request>)
    ensures Run(s, rs).authority == s.authority || Newer(Run(s, rs).authority, s.authority)
    decreases |rs|
  {
    if rs != [] {
      StepAdvances(s, rs[0]);
      RunAdvances(Step(s, rs[0]), rs[1..]);
      NewerOrder(Run(s, rs).authority, Step(s, rs[0]).authority, s.authority);
    }
  }

  /** A worker holding (epoch, boot) can still get some mutation accepted exactly when its session is not
      behind the current one: boots are compared as numbers, so a connection whose nonce is the smaller of
      two in one epoch is shut out once the other has committed. */
  lemma SessionOpenIff(s: State, epoch: nat, boot: Id, worker: Id, origin: Enum)
    ensures (exists g: nat :: Accepted(s, Commit(Authority(epoch, boot, worker, g, origin))))
       <==> epoch > s.authority.epoch || (epoch == s.authority.epoch && boot >= s.authority.boot)
  {
    var g := s.authority.generation + 1;
    if epoch > s.authority.epoch || (epoch == s.authority.epoch && boot >= s.authority.boot) {
      assert Accepted(s, Commit(Authority(epoch, boot, worker, g, origin)));
    }
  }

  /** A session left behind stays shut out for good. */
  lemma {:induction false} SessionNeverReopens(s: State, rs: seq<Request>, incoming: Authority)
    requires !Newer(incoming, s.authority)
    ensures !Accepted(Run(s, rs), Commit(incoming)) && incoming !in Log(s, rs)
    decreases |rs|
  {
    RunAdvances(s, rs);
    NewerOrder(incoming, Run(s, rs).authority, s.authority);
    LogIncreases(s, rs);
  }

  /** RECOVER: recover sets the epoch after the one in the file, and the baseline is reset to it. */
  function Restored(s: State, savedEpoch: nat): State {
    s.(authority := Baseline(savedEpoch + 1))
  }

  /** Everything shut out stays shut out exactly when the file is not older than the live epoch, or nothing was accepted in
      that yet: from an older file the authority moves back, and envelopes accepted before are accepted again. */
  lemma RestoredFencesIff(s: State, savedEpoch: nat)
    ensures (forall a :: !Accepted(s, Commit(a)) ==> !Accepted(Restored(s, savedEpoch), Commit(a))) <==>
      || savedEpoch >= s.authority.epoch
      || (savedEpoch + 1 == s.authority.epoch && s.authority.boot == s.authority.generation == 0)
  {
    var t := Restored(s, savedEpoch);
    if savedEpoch >= s.authority.epoch
      || (savedEpoch + 1 == s.authority.epoch && s.authority.boot == s.authority.generation == 0) {
      forall a | !Accepted(s, Commit(a))
        ensures !Accepted(t, Commit(a))
      {
        NewerOrder(a, t.authority, s.authority);
      }
    } else {
      assert !Accepted(s, Commit(s.authority)) && Accepted(t, Commit(s.authority));
    }
  }

  /** Dispatch numbers handed out during a run. */
  function Dispatches(s: State, rs: seq<Request>): seq<nat>
    decreases |rs|
  {
    if rs == [] then []
    else (if rs[0].Commit? && Accepted(s, rs[0]) then [s.nextDispatch] else []) + Dispatches(Step(s, rs[0]), rs[1..])
  }

  lemma {:induction false} DispatchesCount(s: State, rs: seq<Request>)
    ensures forall i :: 0 <= i < |Dispatches(s, rs)| ==> Dispatches(s, rs)[i] == s.nextDispatch + i
    decreases |rs|
  {
    if rs != [] {
      DispatchesCount(Step(s, rs[0]), rs[1..]);
    }
  }
}
