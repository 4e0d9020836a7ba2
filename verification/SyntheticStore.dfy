/** src/synthetic_backend.cpp: the in-memory backend and its capacity account. Sizes are uint64_t; the net
    change of a put is a wrapping difference. */
module SyntheticStore {
  import opened Bytes
  import opened Status
  import opened Model
  import opened Sums

  type Key = seq<char>

  datatype Store = Store(blobs: map<Key, bytes>, used: U64, total: U64, degraded: bool, unavailable: bool)

  datatype Access = READ | WRITE | DELETE

  /** ensure_available: a degraded backend still reads. */
  function Available(s: Store, access: Access): Outcome {
    if s.unavailable then Fail(BackendUnavailable)
    else if s.degraded && access != READ then Fail(BackendDegraded)
    else Pass
  }

  function Size(s: Store, key: Key): nat {
    if key in s.blobs then |s.blobs[key]| else 0
  }

  function Put(s: Store, key: Key, data: bytes): (Result<nat>, Store)
    requires |data| < TWO_64
  {
    var a := Available(s, WRITE);
    if a.Fail? then (Err(a.code), s)
    else
      var net := (|data| - Size(s, key)) % TWO_64;
      if (s.used + net) % TWO_64 > s.total then (Err(InsufficientCapacity), s)
      else (Ok(|data|), s.(blobs := s.blobs[key := data], used := (s.used + net) % TWO_64))
  }

  function Read(s: Store, key: Key): Result<bytes> {
    var a := Available(s, READ);
    if a.Fail? then Err(a.code)
    else if key !in s.blobs then Err(NotFound)
    else Ok(s.blobs[key])
  }

  function Remove(s: Store, key: Key): (Outcome, Store) {
    var a := Available(s, DELETE);
    if a.Fail? then (a, s)
    else if key !in s.blobs then (Pass, s)
    else (Pass, s.(blobs := s.blobs - {key}, used := (s.used - |s.blobs[key]|) % TWO_64))
  }

  class SyntheticBackend {
    var blobs: map<Key, bytes>
    var used: U64
    const total: U64
    var degraded: bool
    var unavailable: bool

    function Abs(): Store
      reads this
    {
      Store(blobs, used, total, degraded, unavailable)
    }

    constructor (total: U64, degraded: bool, unavailable: bool)
      ensures Abs() == Store(map[], 0, total, degraded, unavailable)
    {
      this.blobs, this.used, this.total := map[], 0, total;
      this.degraded, this.unavailable := degraded, unavailable;
    }

    method EnsureAvailable(access: Access) returns (o: Outcome)
      ensures o == Available(Abs(), access)
    {
      if unavailable { return Fail(BackendUnavailable); }
      if degraded && access != READ { return Fail(BackendDegraded); }
      return Pass;
    }

    method PutBlob(data: bytes, key: Key) returns (r: Result<nat>)
      requires |data| < TWO_64
      modifies this
      ensures (r, Abs()) == Put(old(Abs()), key, data)
    {
      var a := EnsureAvailable(WRITE);
      if a.Fail? { return Err(a.code); }
      var old_ := if key in blobs then |blobs[key]| else 0;
      var net := (|data| - old_) % TWO_64;
      if (used + net) % TWO_64 > total { return Err(InsufficientCapacity); }
      blobs := blobs[key := data];
      used := (used + net) % TWO_64;
      return Ok(|data|);
    }

    method ReadBlob(key: Key) returns (r: Result<bytes>)
      ensures r == Read(Abs(), key)
    {
      var a := EnsureAvailable(READ);
      if a.Fail? { return Err(a.code); }
      if key !in blobs { return Err(NotFound); }
      return Ok(blobs[key]);
    }

    method RemoveBlob(key: Key) returns (o: Outcome)
      modifies this
      ensures (o, Abs()) == Remove(old(Abs()), key)
    {
      var a := EnsureAvailable(DELETE);
      if a.Fail? { return a; }
      if key in blobs {
        used := (used - |blobs[key]|) % TWO_64;
        blobs := blobs - {key};
      }
      return Pass;
    }

    method SetHealth(degraded: bool, unavailable: bool)
      modifies this
      ensures Abs() == old(Abs()).(degraded := degraded, unavailable := unavailable)
    {
      this.degraded, this.unavailable := degraded, unavailable;
    }
  }

  /** What a backend in bad health refuses, unchanged: everything when it is unavailable, writes and removals when it
      is degraded, and of reads only those of keys it does not have. */
  lemma HealthDecides(s: Store, key: Key, data: bytes)
    requires |data| < TWO_64
    ensures s.unavailable ==>
      Put(s, key, data) == (Err(BackendUnavailable), s) && Remove(s, key) == (Fail(BackendUnavailable), s)
      && Read(s, key) == Err(BackendUnavailable)
    ensures s.degraded && !s.unavailable ==>
      Put(s, key, data) == (Err(BackendDegraded), s) && Remove(s, key) == (Fail(BackendDegraded), s)
    ensures !s.unavailable ==> Read(s, key) == if key in s.blobs then Ok(s.blobs[key]) else Err(NotFound)
    ensures !s.unavailable && !s.degraded ==> Remove(s, key).0 == Pass && Remove(s, key).1.blobs == s.blobs - {key}
  {}

  // ----- The capacity account -----

  ghost function Sizes(blobs: map<Key, bytes>): map<Key, nat> {
    map k | k in blobs :: |blobs[k]|
  }

  /** used_bytes_ is the total size of what is stored, and within capacity. */
  ghost predicate Accounted(s: Store) {
    s.used == Sum(Sizes(s.blobs)) && s.used <= s.total
  }

  /** The stored bytes after replacing `key` do not reach 2^64. */
  predicate NoOverflow(s: Store, key: Key, data: bytes) {
    s.used - Size(s, key) + |data| < TWO_64
  }

  lemma SizesUpdate(blobs: map<Key, bytes>, key: Key, data: bytes)
    ensures Sum(Sizes(blobs[key := data]))
         == Sum(Sizes(blobs)) - (if key in blobs then |blobs[key]| else 0) + |data|
  {
    assert Sizes(blobs[key := data]) == Sizes(blobs)[key := |data|];
    SumUpdate(Sizes(blobs), key, |data|);
  }

  lemma SizesTerm(blobs: map<Key, bytes>, key: Key)
    requires key in blobs
    ensures |blobs[key]| <= Sum(Sizes(blobs))
    ensures Sum(Sizes(blobs - {key})) == Sum(Sizes(blobs)) - |blobs[key]|
  {
    SumTake(Sizes(blobs), key);
    assert Sizes(blobs) - {key} == Sizes(blobs - {key});
  }

  lemma WrappedChange(used: U64, old_: nat, size: nat)
    requires old_ <= used && size < TWO_64
    ensures (used + (size - old_) % TWO_64) % TWO_64 == (used - old_ + size) % TWO_64
  {}

  /** Below 2^64 a put is a write to a capacity-bounded map: it succeeds exactly when the new total fits,
      growing or shrinking. */
  lemma PutBounded(s: Store, key: Key, data: bytes)
    requires Accounted(s) && |data| < TWO_64 && NoOverflow(s, key, data)
    ensures var (r, t) := Put(s, key, data);
      (r.Ok? <==> Available(s, WRITE).Pass? && s.used - Size(s, key) + |data| <= s.total)
      && Accounted(t)
      && t.blobs == (if r.Ok? then s.blobs[key := data] else s.blobs)
  {
    hide Sum, Sizes, Available;
    if key in s.blobs {
      SizesTerm(s.blobs, key);
    }
    SizesUpdate(s.blobs, key, data);
    WrappedChange(s.used, Size(s, key), |data|);
    Unwrapped(s.used - Size(s, key) + |data|);
  }

  lemma Unwrapped(n: nat)
    requires n < TWO_64
    ensures n % TWO_64 == n
  {}

  /** The guard before the store changes: the backend takes no writes, or the wrapped new account is over capacity. */
  predicate Refuses(s: Store, key: Key, size: nat) {
    Available(s, WRITE).Fail? || (s.used - Size(s, key) + size) % TWO_64 > s.total
  }

  /** The account survives a put exactly when the guard stops it or the true total stays below 2^64. */
  lemma PutAccountedIff(s: Store, key: Key, data: bytes)
    requires Accounted(s) && |data| < TWO_64
    ensures Accounted(Put(s, key, data).1) <==> Refuses(s, key, |data|) || NoOverflow(s, key, data)
    ensures Put(s, key, data).0.Err? <==> Refuses(s, key, |data|)
  {
    hide Sum, Sizes;
    if key in s.blobs {
      SizesTerm(s.blobs, key);
    }
    WrappedChange(s.used, Size(s, key), |data|);
    if NoOverflow(s, key, data) {
      PutBounded(s, key, data);
    } else {
      SizesUpdate(s.blobs, key, data);
    }
  }

  /** With the largest capacity, four blobs of 2^62 bytes are all accepted: after the fourth, nothing counts as used. */
  lemma PutOverflowExample(quarter: bytes)
    requires |quarter| == 0x4000_0000_0000_0000
    ensures var s := Put(Put(Put(Store(map[], 0, TWO_64 - 1, false, false), "a", quarter).1, "b", quarter).1, "c", quarter).1;
      Accounted(s) && Put(s, "d", quarter).0.Ok? && Put(s, "d", quarter).1.used == 0 && !Accounted(Put(s, "d", quarter).1)
  {
    hide Accounted;
    var e := Store(map[], 0, TWO_64 - 1, false, false);
    NothingAccounted(TWO_64 - 1);
    PutBounded(e, "a", quarter);
    var a := Put(e, "a", quarter).1;
    PutBounded(a, "b", quarter);
    var b := Put(a, "b", quarter).1;
    PutBounded(b, "c", quarter);
    var c := Put(b, "c", quarter).1;
    assert c.used == 3 * |quarter|;
    PutAccountedIff(c, "d", quarter);
  }

  lemma NothingAccounted(total: U64)
    ensures Accounted(Store(map[], 0, total, false, false))
  {
    SumOfZeros(Sizes(map[]));
  }

  lemma RemoveAccounted(s: Store, key: Key)
    requires Accounted(s)
    ensures var (o, t) := Remove(s, key);
      Accounted(t) && (o.Pass? <==> Available(s, DELETE).Pass?)
      && t.blobs == (if o.Pass? then s.blobs - {key} else s.blobs)
  {
    hide Sum, Sizes;
    if key in s.blobs {
      SizesTerm(s.blobs, key);
    } else {
      assert s.blobs - {key} == s.blobs;
    }
  }

  // ----- Runs -----

  datatype Op =
    | OpPut(key: Key, data: bytes)
    | OpRemove(key: Key)
    | OpHealth(degraded: bool, unavailable: bool)

  function Apply(s: Store, op: Op): Store
    requires op.OpPut? ==> |op.data| < TWO_64
  {
    match op
    case OpPut(key, data) => Put(s, key, data).1
    case OpRemove(key) => Remove(s, key).1
    case OpHealth(degraded, unavailable) => s.(degraded := degraded, unavailable := unavailable)
  }

  /** A blob's size is a 64-bit number. */
  predicate Sized(ops: seq<Op>) {
    forall op <- ops :: op.OpPut? ==> |op.data| < TWO_64
  }

  /** The account is exact before every operation and after the last. */
  ghost predicate AlwaysAccounted(s: Store, ops: seq<Op>)
    requires Sized(ops)
    decreases |ops|
  {
    Accounted(s) && (ops != [] ==> Sized(ops[1..]) && AlwaysAccounted(Apply(s, ops[0]), ops[1..]))
  }

  /** Every put is stopped by its guard or leaves less than 2^64 bytes stored. */
  predicate NeverOverflows(s: Store, ops: seq<Op>)
    requires Sized(ops)
    decreases |ops|
  {
    ops != [] ==>
      && (ops[0].OpPut? ==> Refuses(s, ops[0].key, |ops[0].data|) || NoOverflow(s, ops[0].key, ops[0].data))
      && Sized(ops[1..]) && NeverOverflows(Apply(s, ops[0]), ops[1..])
  }

  lemma ApplyAccountedIff(s: Store, op: Op)
    requires Accounted(s) && (op.OpPut? ==> |op.data| < TWO_64)
    ensures Accounted(Apply(s, op)) <==>
      (op.OpPut? ==> Refuses(s, op.key, |op.data|) || NoOverflow(s, op.key, op.data))
  {
    hide Sum, Sizes;
    match op
    case OpPut(key, data) => PutAccountedIff(s, key, data);
    case OpRemove(key) => RemoveAccounted(s, key);
    case OpHealth(_, _) =>
  }

  /** Through any history of puts, removals and changes of health the account is exact and within capacity, exactly
      while the stored bytes stay below 2^64. */
  lemma {:induction false} RunAccountedIff(s: Store, ops: seq<Op>)
    requires Accounted(s) && Sized(ops)
    ensures AlwaysAccounted(s, ops) <==> NeverOverflows(s, ops)
    decreases |ops|
  {
    hide Accounted, Apply, Refuses, NoOverflow;
    if ops != [] {
      var rest := ops[1..];
      assert forall op <- rest :: op in ops;
      ApplyAccountedIff(s, ops[0]);
      var t := Apply(s, ops[0]);
      if Accounted(t) {
        RunAccountedIff(t, rest);
      } else {
        NotAlways(t, rest);
      }
    }
  }

  lemma NotAlways(s: Store, ops: seq<Op>)
    requires Sized(ops) && !Accounted(s)
    ensures !AlwaysAccounted(s, ops)
  {}
}
