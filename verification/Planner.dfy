/** src/planner.cpp: hard constraints, ranking, selection and replica targets. The soft score is any real-valued
    function of the candidate. */
module Planner {
  import opened Status
  import opened Model
  import opened Permutations

  datatype Health = HEALTHY | DEGRADED | UNHEALTHY | UNAVAILABLE | UNKNOWN

  datatype Constraint =
    | NONE | DURABILITY_UNAVAILABLE | INSUFFICIENT_CAPACITY | BACKEND_UNAVAILABLE | OBJECT_TOO_LARGE

  datatype Candidate = Candidate(
    backend: Id, tier: Id, storageClass: Enum, free: U64, total: U64, capacityUnknown: bool,
    health: Health, persistent: bool, domain: seq<char>)

  datatype Request = Request(size: U64, required: nat, maxObjectBytes: U64)

  type Score = Candidate -> real

  datatype Ranked = Ranked(backend: Id, tier: Id, score: real, viable: bool, constraint: Constraint)

  datatype Target = Target(backend: Id, tier: Id, domain: seq<char>)

  datatype Plan = Plan(feasible: bool, ranked: seq<Ranked>, selected: Option<Ranked>, targets: seq<Target>)

  predicate Available(c: Candidate) {
    c.health == HEALTHY || c.health == DEGRADED
  }

  predicate CapacityOk(c: Candidate, size: U64) {
    c.capacityUnknown || c.free >= size
  }

  /** All hard constraints at once. */
  predicate Passes(r: Request, c: Candidate) {
    && (c.health == HEALTHY || c.health == DEGRADED)
    && (r.maxObjectBytes == 0 || r.size <= r.maxObjectBytes)
    && (c.capacityUnknown || r.size <= c.free)
    && (r.required <= 1 || c.persistent)
  }

  /** The first hard constraint a candidate fails, in the order they are tried. */
  function FirstViolation(r: Request, c: Candidate): (v: Constraint)
    ensures v == NONE <==> Passes(r, c)
    ensures v == BACKEND_UNAVAILABLE <==> c.health in {UNHEALTHY, UNAVAILABLE, UNKNOWN}
    ensures v == OBJECT_TOO_LARGE <==> c.health in {HEALTHY, DEGRADED} && 0 < r.maxObjectBytes < r.size
    ensures v == DURABILITY_UNAVAILABLE <==> Passes(r.(required := 1), c) && r.required > 1 && !c.persistent
  {
    if !Available(c) then BACKEND_UNAVAILABLE
    else if r.maxObjectBytes != 0 && r.size > r.maxObjectBytes then OBJECT_TOO_LARGE
    else if !CapacityOk(c, r.size) then INSUFFICIENT_CAPACITY
    else if r.required > 1 && !c.persistent then DURABILITY_UNAVAILABLE
    else NONE
  }

  function Evaluate(r: Request, score: Score, c: Candidate): Ranked {
    var v := FirstViolation(r, c);
    Ranked(c.backend, c.tier, score(c), v == NONE, v)
  }

  /** Viable first, then the higher score, then the lower backend id. */
  predicate Precedes(a: Ranked, b: Ranked) {
    if a.viable != b.viable then a.viable
    else if a.score != b.score then a.score > b.score
    else a.backend < b.backend
  }

  ghost predicate InOrder(s: seq<Ranked>) {
    forall i, j :: 0 <= i < j < |s| ==> !Precedes(s[j], s[i])
  }

  /** a may stand before b: no viable candidate follows one that is not, and among those alike in this the score falls,
      or stays while the backend id does not fall. */
  predicate NoWorse(a: Ranked, b: Ranked) {
    && (b.viable ==> a.viable)
    && (a.viable == b.viable ==> a.score > b.score || (a.score == b.score && a.backend <= b.backend))
  }

  ghost predicate BestFirst(s: seq<Ranked>) {
    forall i, j :: 0 <= i < j < |s| ==> NoWorse(s[i], s[j])
  }

  lemma OrderMeans(s: seq<Ranked>)
    ensures InOrder(s) <==> BestFirst(s)
  {
    forall i, j | 0 <= i < j < |s|
      ensures !Precedes(s[j], s[i]) <==> NoWorse(s[i], s[j])
    {}
  }

  function EvaluateAll(r: Request, score: Score, cs: seq<Candidate>): (es: seq<Ranked>)
    ensures |es| == |cs| && forall i :: 0 <= i < |cs| ==> es[i] == Evaluate(r, score, cs[i])
  {
    if cs == [] then [] else [Evaluate(r, score, cs[0])] + EvaluateAll(r, score, cs[1..])
  }

  ghost predicate DistinctBackends(cs: seq<Candidate>) {
    forall i, j :: 0 <= i < j < |cs| ==> cs[i].backend != cs[j].backend
  }

  function Domains(cs: seq<Candidate>): set<seq<char>> {
    set c | c in cs && Available(c) :: c.domain
  }

  function Min(a: nat, b: nat): nat {
    if a < b then a else b
  }

  // ----- The planner -----

  /** plan() */
  method MakePlan(r: Request, score: Score, cs: seq<Candidate>) returns (p: Plan)
    ensures InOrder(p.ranked) && BestFirst(p.ranked)
    ensures multiset(p.ranked) == multiset(EvaluateAll(r, score, cs))
    ensures p.feasible <==> AnyPasses(r, cs)
    ensures p.feasible ==> p.ranked != [] && p.selected == Some(p.ranked[0])
    ensures !p.feasible ==> p.selected == None
    ensures p.feasible && r.required > 1 ==>
      |p.targets| == Min(r.required, |Domains(cs)|) && TargetsFrom(p.targets, cs)
    ensures !(p.feasible && r.required > 1) ==> p.targets == []
  {
    var evaluated, anyViable := EvaluateCandidates(r, score, cs);
    hide Precedes, Evaluate, Passes, Available;
    var ranked := StableSort(evaluated);
    var selected := None;
    if anyViable {
      selected := Some(ranked[0]);
    }
    var targets := [];
    if anyViable && r.required > 1 {
      targets := ChooseTargets(r, cs);
    }
    OrderMeans(ranked);
    p := Plan(anyViable, ranked, selected, targets);
  }

  ghost predicate AnyPasses(r: Request, cs: seq<Candidate>) {
    exists c :: c in cs && Passes(r, c)
  }

  lemma AnyPassesNext(r: Request, cs: seq<Candidate>, i: nat)
    requires i < |cs|
    ensures AnyPasses(r, cs[..i + 1]) <==> AnyPasses(r, cs[..i]) || Passes(r, cs[i])
  {
    hide Passes;
    assert cs[..i + 1] == cs[..i] + [cs[i]];
    assert cs[i] in cs[..i + 1];
  }

  method EvaluateCandidates(r: Request, score: Score, cs: seq<Candidate>)
    returns (evaluated: seq<Ranked>, anyViable: bool)
    ensures evaluated == EvaluateAll(r, score, cs)
    ensures anyViable <==> AnyPasses(r, cs)
    ensures anyViable ==> cs != []
  {
    hide Passes, AnyPasses, FirstViolation;
    evaluated, anyViable := [], false;
    NonePasses(r, cs);
    for i := 0 to |cs|
      invariant evaluated == EvaluateAll(r, score, cs)[..i]
      invariant anyViable <==> AnyPasses(r, cs[..i])
    {
      var e := Evaluate(r, score, cs[i]);
      AnyPassesNext(r, cs, i);
      if e.viable { anyViable := true; }
      evaluated := evaluated + [e];
    }
    assert cs[..|cs|] == cs;
  }

  lemma NonePasses(r: Request, cs: seq<Candidate>)
    ensures !AnyPasses(r, cs[..0])
  {}

  /** std::stable_sort with the planner's comparator. */
  method StableSort(s: seq<Ranked>) returns (r: seq<Ranked>)
    ensures InOrder(r) && multiset(r) == multiset(s) && |r| == |s|
  {
    r := [];
    for i := 0 to |s|
      invariant InOrder(r) && multiset(r) == multiset(s[..i]) && |r| == i
    {
      r := Insert(r, s[i]);
      assert s[..i + 1] == s[..i] + [s[i]];
    }
    assert s[..|s|] == s;
  }

  method Insert(s: seq<Ranked>, e: Ranked) returns (r: seq<Ranked>)
    requires InOrder(s)
    ensures InOrder(r) && multiset(r) == multiset(s) + multiset{e} && |r| == |s| + 1
  {
    var i := |s|;
    while i > 0 && Precedes(e, s[i - 1])
      invariant 0 <= i <= |s| && forall j :: i <= j < |s| ==> Precedes(e, s[j])
    {
      i := i - 1;
    }
    r := s[..i] + [e] + s[i..];
    InsertedInOrder(s, e, i);
    Inserted(s, e, i);
  }

  lemma InsertedInOrder(s: seq<Ranked>, e: Ranked, i: nat)
    requires InOrder(s) && i <= |s| && (i > 0 ==> !Precedes(e, s[i - 1]))
    requires forall j :: i <= j < |s| ==> Precedes(e, s[j])
    ensures InOrder(s[..i] + [e] + s[i..])
  {
    if i > 0 {
      forall j | 0 <= j < i
        ensures !Precedes(e, s[j])
      {
        if j < i - 1 && Precedes(e, s[j]) {
          PrecedesChain(e, s[j], s[i - 1]);
        }
      }
    }
    forall j | i <= j < |s|
      ensures !Precedes(s[j], e)
    {
      PrecedesChain(e, s[j], e);
    }
  }

  /** Not preceding is a total preorder. */
  lemma PrecedesChain(a: Ranked, b: Ranked, c: Ranked)
    ensures Precedes(a, b) && !Precedes(c, b) ==> Precedes(a, c)
    ensures Precedes(a, b) ==> !Precedes(b, a)
    ensures !Precedes(a, b) && !Precedes(b, a) ==> a.backend == b.backend
  {}

  /** Replica targets: available candidates in distinct failure domains, as many as asked for or exist. */
  ghost predicate TargetsFrom(ts: seq<Target>, cs: seq<Candidate>) {
    && (forall i, j :: 0 <= i < j < |ts| ==> ts[i].domain != ts[j].domain)
    && forall t <- ts :: exists c :: c in cs && Available(c) && t.backend == c.backend && t.tier == c.tier && t.domain == c.domain
  }

  method ChooseTargets(r: Request, cs: seq<Candidate>) returns (targets: seq<Target>)
    requires r.required > 1
    ensures |targets| == Min(r.required, |Domains(cs)|) && TargetsFrom(targets, cs)
  {
    hide TargetsFrom, Available, Domains, TargetDomains;
    targets := [];
    NoTargets(cs);
    var domains: set<seq<char>> := {};
    var i := 0;
    while i < |cs|
      invariant 0 <= i <= |cs| && |targets| < r.required
      invariant domains == Domains(cs[..i]) == TargetDomains(targets) && |targets| == |domains|
      invariant TargetsFrom(targets, cs)
    {
      var c := cs[i];
      DomainsNext(cs, i);
      i := i + 1;
      if !Available(c) {
        continue;
      }
      if c.domain !in domains {
        domains := domains + {c.domain};
        var t := Target(c.backend, c.tier, c.domain);
        OneMoreTarget(targets, c, cs);
        targets := targets + [t];
      }
      if |targets| >= r.required {
        DomainsGrow(cs, i);
        return;
      }
    }
    assert cs[..|cs|] == cs;
  }

  ghost function TargetDomains(ts: seq<Target>): set<seq<char>> {
    set t | t in ts :: t.domain
  }

  lemma NoTargets(cs: seq<Candidate>)
    ensures TargetsFrom([], cs) && Domains(cs[..0]) == {} == TargetDomains([])
  {}

  lemma OneMoreTarget(ts: seq<Target>, c: Candidate, cs: seq<Candidate>)
    requires TargetsFrom(ts, cs) && c in cs && Available(c) && c.domain !in TargetDomains(ts)
    ensures var us := ts + [Target(c.backend, c.tier, c.domain)];
      TargetsFrom(us, cs) && TargetDomains(us) == TargetDomains(ts) + {c.domain}
  {
    assert forall t <- ts :: t.domain in TargetDomains(ts);
    var u := Target(c.backend, c.tier, c.domain);
    assert u in ts + [u];
  }

  lemma DomainsNext(cs: seq<Candidate>, i: nat)
    requires i < |cs|
    ensures Domains(cs[..i + 1]) == Domains(cs[..i]) + (if Available(cs[i]) then {cs[i].domain} else {})
  {
    assert cs[..i + 1] == cs[..i] + [cs[i]];
  }

  lemma DomainsGrow(cs: seq<Candidate>, i: nat)
    requires i <= |cs|
    ensures |Domains(cs[..i])| <= |Domains(cs)|
  {
    assert cs == cs[..i] + cs[i..];
    assert Domains(cs[..i]) <= Domains(cs);
    SubsetSize(Domains(cs[..i]), Domains(cs));
  }

  lemma SubsetSize(a: set<seq<char>>, b: set<seq<char>>)
    requires a <= b
    ensures |a| <= |b|
  {
    assert b == a + (b - a);
  }

  // ----- Determinism and optimality -----

  ghost predicate DistinctIds(s: seq<Ranked>) {
    forall i, j :: 0 <= i < j < |s| ==> s[i].backend != s[j].backend
  }

  lemma EvaluateAllDistinct(r: Request, score: Score, cs: seq<Candidate>)
    requires DistinctBackends(cs)
    ensures DistinctIds(EvaluateAll(r, score, cs))
  {}

  /** Records with one id are one record, and it occurs once. */
  ghost predicate IdsOnce(m: multiset<Ranked>) {
    forall a, b :: a in m && b in m && a.backend == b.backend ==> a == b && m[a] == 1
  }

  lemma {:induction false} DistinctOnce(s: seq<Ranked>)
    requires DistinctIds(s)
    ensures IdsOnce(multiset(s))
    decreases |s|
  {
    if s != [] {
      DistinctOnce(s[1..]);
      assert s == [s[0]] + s[1..];
      assert forall x :: x in s[1..] ==> x.backend != s[0].backend;
    }
  }

  /** A strict total order has one sorted arrangement. */
  lemma {:induction false} SortedUnique(s: seq<Ranked>, t: seq<Ranked>)
    requires InOrder(s) && InOrder(t) && multiset(s) == multiset(t) && IdsOnce(multiset(s))
    ensures s == t
    decreases |s|
  {
    hide Precedes;
    SameLength(s, t);
    if s != [] {
      LeastFirst(s, t);
      LeastFirst(t, s);
      PrecedesChain(s[0], t[0], s[0]);
      assert s[0] in multiset(s) && t[0] in multiset(t);
      assert s[0] == t[0];
      SameTails(s, t);
      OnceTail(s);
      SortedUnique(s[1..], t[1..]);
      assert s == [s[0]] + s[1..] && t == [t[0]] + t[1..];
    }
  }

  lemma LeastFirst(s: seq<Ranked>, t: seq<Ranked>)
    requires InOrder(s) && multiset(s) == multiset(t) && s != [] && t != []
    ensures !Precedes(t[0], s[0])
  {
    SameMembers(s, t);
    assert t[0] in s;
    var j :| 0 <= j < |s| && s[j] == t[0];
    PrecedesChain(s[0], s[0], s[0]);
  }

  lemma OnceTail(s: seq<Ranked>)
    requires IdsOnce(multiset(s)) && s != []
    ensures IdsOnce(multiset(s[1..]))
  {
    Removed(s, 0);
    assert s[..0] + s[1..] == s[1..];
    var m := multiset(s[1..]);
    forall a, b | a in m && b in m && a.backend == b.backend
      ensures a == b && m[a] == 1
    {
      assert a in multiset(s) && b in multiset(s);
    }
  }

  lemma EvaluateAllRemove(r: Request, score: Score, cs: seq<Candidate>, i: nat)
    requires i < |cs|
    ensures multiset(EvaluateAll(r, score, cs))
         == multiset(EvaluateAll(r, score, cs[..i] + cs[i + 1..])) + multiset{Evaluate(r, score, cs[i])}
  {
    hide Evaluate;
    var e := EvaluateAll(r, score, cs);
    assert EvaluateAll(r, score, cs[..i] + cs[i + 1..]) == e[..i] + e[i + 1..];
    Removed(e, i);
  }

  lemma {:induction false} EvaluateAllPermuted(r: Request, score: Score, cs: seq<Candidate>, ds: seq<Candidate>)
    requires multiset(cs) == multiset(ds)
    ensures multiset(EvaluateAll(r, score, cs)) == multiset(EvaluateAll(r, score, ds))
    decreases |cs|
  {
    if cs == [] {
      SameLength(cs, ds);
    } else {
      var i := HeadIn(cs, ds);
      EvaluateAllPermuted(r, score, cs[1..], ds[..i] + ds[i + 1..]);
      hide EvaluateAll, Evaluate;
      EvaluateAllRemove(r, score, ds, i);
      EvaluateAllRemove(r, score, cs, 0);
      assert cs[..0] + cs[1..] == cs[1..];
    }
  }

  /** The ranking and the selection do not depend on the order the candidates come in. */
  lemma RankingDeterministic(r: Request, score: Score, cs: seq<Candidate>, ds: seq<Candidate>,
                             ranked: seq<Ranked>, ranked': seq<Ranked>)
    requires multiset(cs) == multiset(ds) && DistinctBackends(cs)
    requires InOrder(ranked) && multiset(ranked) == multiset(EvaluateAll(r, score, cs))
    requires InOrder(ranked') && multiset(ranked') == multiset(EvaluateAll(r, score, ds))
    ensures ranked == ranked'
  {
    EvaluateAllPermuted(r, score, cs, ds);
    EvaluateAllDistinct(r, score, cs);
    DistinctOnce(EvaluateAll(r, score, cs));
    SortedUnique(ranked, ranked');
  }

  /** The plan as a function of the request: two runs over the same candidates agree. */
  method PlanTwice(r: Request, score: Score, cs: seq<Candidate>, ds: seq<Candidate>) returns (p: Plan, q: Plan)
    requires multiset(cs) == multiset(ds) && DistinctBackends(cs)
    ensures p.ranked == q.ranked && p.selected == q.selected && p.feasible == q.feasible
    ensures |p.targets| == |q.targets|
  {
    p := MakePlan(r, score, cs);
    q := MakePlan(r, score, ds);
    RankingDeterministic(r, score, cs, ds, p.ranked, q.ranked);
    SameMembers(cs, ds);
    assert Domains(cs) == Domains(ds);
  }

  predicate IsEvaluation(r: Request, score: Score, c: Candidate, e: Ranked) {
    && e.backend == c.backend && e.tier == c.tier && e.score == score(c)
    && e.viable == Passes(r, c) && e.constraint == FirstViolation(r, c)
  }

  /** Every entry of the ranking is the evaluation of a candidate: its ids and score, and why it cannot be chosen. */
  lemma RankedEntries(r: Request, score: Score, cs: seq<Candidate>, ranked: seq<Ranked>, e: Ranked)
    requires multiset(ranked) == multiset(EvaluateAll(r, score, cs)) && e in ranked
    ensures exists c :: c in cs && IsEvaluation(r, score, c, e)
  {
    hide Passes, FirstViolation;
    var es := EvaluateAll(r, score, cs);
    assert e in multiset(ranked) && e in es;
    var i :| 0 <= i < |es| && es[i] == e;
    Evaluated(r, score, cs[i]);
  }

  lemma Evaluated(r: Request, score: Score, c: Candidate)
    ensures IsEvaluation(r, score, c, Evaluate(r, score, c))
  {}

  /** The selected candidate passes every hard constraint, and no candidate that does is better. */
  lemma SelectedIsBest(r: Request, score: Score, cs: seq<Candidate>, ranked: seq<Ranked>)
    requires InOrder(ranked) && multiset(ranked) == multiset(EvaluateAll(r, score, cs))
    requires AnyPasses(r, cs)
    ensures ranked != [] && ranked[0].viable
    ensures exists c :: c in cs && Passes(r, c) && ranked[0] == Evaluate(r, score, c)
    ensures forall c <- cs :: Passes(r, c) ==>
      score(c) < ranked[0].score || (score(c) == ranked[0].score && ranked[0].backend <= c.backend)
  {
    var es := EvaluateAll(r, score, cs);
    forall c | c in cs
      ensures Evaluate(r, score, c) in ranked
    {
      var i :| 0 <= i < |cs| && cs[i] == c;
      assert es[i] in multiset(ranked);
    }
    var w :| w in cs && Passes(r, w);
    var i :| 0 <= i < |ranked| && ranked[i] == Evaluate(r, score, w);
    assert i > 0 ==> !Precedes(ranked[i], ranked[0]);
    assert ranked[0] in multiset(es);
    var j :| 0 <= j < |es| && es[j] == ranked[0];
    assert cs[j] in cs && Passes(r, cs[j]) && ranked[0] == Evaluate(r, score, cs[j]);
    forall c | c in cs && Passes(r, c)
      ensures score(c) < ranked[0].score || (score(c) == ranked[0].score && ranked[0].backend <= c.backend)
    {
      var k :| 0 <= k < |ranked| && ranked[k] == Evaluate(r, score, c);
      assert k > 0 ==> !Precedes(ranked[k], ranked[0]);
    }
  }
}
