/** include/storagefabric/model/authority.h: the order on authority envelopes. */
module AuthorityOrder {
  import opened Model

  /** AuthorityEnvelope::compare: epoch, then boot, then generation. */
  function Compare(a: Authority, b: Authority): int {
    if a.epoch != b.epoch then (if a.epoch < b.epoch then -1 else 1)
    else if a.boot != b.boot then (if a.boot < b.boot then -1 else 1)
    else if a.generation != b.generation then (if a.generation < b.generation then -1 else 1)
    else 0
  }

  predicate Newer(a: Authority, b: Authority) {
    Compare(a, b) > 0
  }

  predicate SameSession(a: Authority, b: Authority) {
    a.epoch == b.epoch && a.boot == b.boot
  }

  /** A later epoch is newer; within an epoch a greater boot, and of one boot a greater generation. */
  lemma NewerMeans(a: Authority, b: Authority)
    ensures Newer(a, b) <==>
      a.epoch > b.epoch || (a.epoch == b.epoch && (a.boot > b.boot || (a.boot == b.boot && a.generation > b.generation)))
  {}

  /** A strict order, total up to the fields it ignores, whose sessions are intervals. */
  lemma NewerOrder(a: Authority, b: Authority, c: Authority)
    ensures !Newer(a, a)
    ensures Newer(a, b) && Newer(b, c) ==> Newer(a, c)
    ensures Compare(a, b) == -Compare(b, a)
    ensures Compare(a, b) == 0 <==> SameSession(a, b) && a.generation == b.generation
    ensures Newer(b, a) && Newer(c, b) && SameSession(a, c) ==> SameSession(a, b)
  {}
}
