/** src/model.cpp: ordering and validating manifests. Offsets and lengths are uint64_t; the validator
    adds them modulo 2^64. */
module Manifests {
  import opened Bytes
  import opened Status
  import opened Model
  import opened Permutations

  // ----- Order -----

  /** The sort key of sort_chunks. */
  predicate Before(a: Chunk, b: Chunk) {
    a.offset < b.offset || (a.offset == b.offset && a.id <= b.id)
  }

  ghost predicate Sorted(s: seq<Chunk>) {
    forall i, j :: 0 <= i < j < |s| ==> Before(s[i], s[j])
  }

  /** Equal as far as the ordering check looks. */
  predicate SameKey(a: Chunk, b: Chunk) {
    a.offset == b.offset && a.id == b.id
  }

  /** std::sort with that comparator; which of two chunks with equal keys comes first is not fixed. */
  method SortChunks(chunks: seq<Chunk>) returns (sorted: seq<Chunk>)
    ensures Sorted(sorted) && multiset(sorted) == multiset(chunks)
    ensures forall i, j :: 0 <= i < j < |sorted| ==>
      sorted[i].offset <= sorted[j].offset && (sorted[i].offset == sorted[j].offset ==> sorted[i].id <= sorted[j].id)
  {
    sorted := [];
    for i := 0 to |chunks|
      invariant Sorted(sorted) && multiset(sorted) == multiset(chunks[..i])
    {
      sorted := InsertChunk(sorted, chunks[i]);
      assert chunks[..i + 1] == chunks[..i] + [chunks[i]];
    }
    assert chunks[..|chunks|] == chunks;
  }

  method InsertChunk(sorted: seq<Chunk>, c: Chunk) returns (r: seq<Chunk>)
    requires Sorted(sorted)
    ensures Sorted(r) && multiset(r) == multiset(sorted) + multiset{c}
  {
    var i := |sorted|;
    while i > 0 && !Before(sorted[i - 1], c)
      invariant 0 <= i <= |sorted|
      invariant forall j :: i <= j < |sorted| ==> Before(c, sorted[j])
    {
      i := i - 1;
    }
    r := sorted[..i] + [c] + sorted[i..];
    InsertedSorted(sorted, c, i);
    Inserted(sorted, c, i);
  }

  lemma InsertedSorted(s: seq<Chunk>, c: Chunk, i: nat)
    requires Sorted(s) && i <= |s| && (i > 0 ==> Before(s[i - 1], c))
    requires forall j :: i <= j < |s| ==> Before(c, s[j])
    ensures Sorted(s[..i] + [c] + s[i..])
  {
    assert forall j :: 0 <= j < i ==> Before(s[j], c);
  }

  ghost function KeyCount(s: seq<Chunk>, c: Chunk): nat {
    if s == [] then 0 else (if Before(s[0], c) then 1 else 0) + KeyCount(s[1..], c)
  }

  lemma {:induction false} KeyCountSplit(s: seq<Chunk>, t: seq<Chunk>, c: Chunk)
    ensures KeyCount(s + t, c) == KeyCount(s, c) + KeyCount(t, c)
  {
    if s == [] {
      assert s + t == t;
    } else {
      KeyCountSplit(s[1..], t, c);
      assert (s + t)[1..] == s[1..] + t;
    }
  }

  lemma {:induction false} KeyCountPermuted(s: seq<Chunk>, t: seq<Chunk>, c: Chunk)
    requires multiset(s) == multiset(t)
    ensures KeyCount(s, c) == KeyCount(t, c) && |s| == |t|
    decreases |s|
  {
    if s == [] {
      SameLength(s, t);
    } else {
      var i := HeadIn(s, t);
      assert t == t[..i] + ([t[i]] + t[i + 1..]);
      KeyCountPermuted(s[1..], t[..i] + t[i + 1..], c);
      KeyCountSplit(t[..i], [t[i]] + t[i + 1..], c);
      KeyCountSplit([t[i]], t[i + 1..], c);
      KeyCountSplit(t[..i], t[i + 1..], c);
    }
  }

  lemma {:induction false} KeyCountBounds(s: seq<Chunk>, c: Chunk, i: nat)
    requires Sorted(s) && i < |s|
    ensures Before(s[i], c) ==> KeyCount(s, c) >= i + 1
    ensures !Before(s[i], c) ==> KeyCount(s, c) <= i
    decreases |s|
  {
    if i > 0 {
      KeyCountBounds(s[1..], c, i - 1);
      assert s[1..][i - 1] == s[i];
      assert Before(s[0], s[i]);
    } else if !Before(s[0], c) {
      NoneBefore(s, c);
    }
  }

  lemma {:induction false} NoneBefore(s: seq<Chunk>, c: Chunk)
    requires forall x <- s :: !Before(x, c)
    ensures KeyCount(s, c) == 0
  {
    if s != [] {
      NoneBefore(s[1..], c);
    }
  }

  /** Sorting a list that is already in order can only exchange chunks with equal keys. */
  lemma SortedKeysUnique(s: seq<Chunk>, t: seq<Chunk>, i: nat)
    requires Sorted(s) && Sorted(t) && multiset(s) == multiset(t) && i < |s|
    ensures |s| == |t| && SameKey(s[i], t[i])
  {
    KeyCountPermuted(s, t, s[i]);
    KeyCountPermuted(s, t, t[i]);
    KeyCountBounds(s, s[i], i);
    KeyCountBounds(t, s[i], i);
    KeyCountBounds(s, t[i], i);
    KeyCountBounds(t, t[i], i);
  }

  // ----- Validation -----

  /** The checks one chunk goes through, given the ids seen and the cursor after the chunks before it. */
  function CheckChunk(c: Chunk, total: U64, seen: set<Id>, cursor: U64, allowGaps: bool): Outcome {
    if c.id in seen then Fail(DuplicateIdentity)
    else if c.id == 0 || c.blob == 0 then Fail(Malformed)
    else if IsZero(c.digest) then Fail(IntegrityMismatch)
    else if c.logicalLength == 0 || c.physicalLength == 0 then Fail(Malformed)
    else if c.offset > total then Fail(Overflow)
    else if c.offset < cursor then Fail(Malformed)
    else if !allowGaps && c.offset != cursor then Fail(Malformed)
    else if WrapAdd(c.offset, c.logicalLength) > total then Fail(LengthMismatch)
    else Pass
  }

  function WrapAdd(a: U64, b: U64): U64 {
    (a + b) % TWO_64
  }

  function CheckChunks(cs: seq<Chunk>, total: U64, seen: set<Id>, cursor: U64, allowGaps: bool): Outcome {
    if cs == [] then
      if cursor != total then Fail(LengthMismatch) else Pass
    else
      var o := CheckChunk(cs[0], total, seen, cursor, allowGaps);
      if o.Fail? then o
      else CheckChunks(cs[1..], total, seen + {cs[0].id}, WrapAdd(cs[0].offset, cs[0].logicalLength), allowGaps)
  }

  ghost function Validation(m: Manifest, allowGaps: bool): Outcome {
    if m.id == 0 || m.obj == 0 || m.total == 0 then Fail(Malformed)
    else if IsZero(m.digest) then Fail(IntegrityMismatch)
    else if !Sorted(m.chunks) then Fail(Malformed)
    else CheckChunks(m.chunks, m.total, {}, 0, allowGaps)
  }

  /** validate_manifest. The check for an empty chunk list comes last and is never the one that fails:
      a manifest of positive length with no chunks has already failed to cover it. */
  method ValidateManifest(m: Manifest, allowGaps: bool) returns (o: Outcome)
    ensures o == Validation(m, allowGaps)
  {
    if m.id == 0 { return Fail(Malformed); }
    if m.obj == 0 { return Fail(Malformed); }
    if m.total == 0 { return Fail(Malformed); }
    if IsZero(m.digest) { return Fail(IntegrityMismatch); }
    var copy := SortChunks(m.chunks);
    assert |multiset(copy)| == |multiset(m.chunks)|;
    if |copy| != |m.chunks| { return Fail(Malformed); }
    var inOrder := true;
    for i := 0 to |m.chunks|
      invariant inOrder
      invariant forall j :: 0 <= j < i ==> SameKey(copy[j], m.chunks[j])
    {
      if !SameKey(copy[i], m.chunks[i]) {
        if Sorted(m.chunks) {
          SortedKeysUnique(m.chunks, copy, i);
        }
        return Fail(Malformed);
      }
    }
    o := CheckInOrder(m, allowGaps);
  }

  method CheckInOrder(m: Manifest, allowGaps: bool) returns (o: Outcome)
    requires m.total != 0
    ensures o == CheckChunks(m.chunks, m.total, {}, 0, allowGaps)
  {
    var ids: set<Id> := {};
    var cursor: U64 := 0;
    for i := 0 to |m.chunks|
      invariant CheckChunks(m.chunks[i..], m.total, ids, cursor, allowGaps)
             == CheckChunks(m.chunks, m.total, {}, 0, allowGaps)
    {
      var c := m.chunks[i];
      assert m.chunks[i..][0] == c && m.chunks[i..][1..] == m.chunks[i + 1..];
      if c.id in ids { return Fail(DuplicateIdentity); }
      if c.id == 0 || c.blob == 0 { return Fail(Malformed); }
      if IsZero(c.digest) { return Fail(IntegrityMismatch); }
      if c.logicalLength == 0 { return Fail(Malformed); }
      if c.physicalLength == 0 { return Fail(Malformed); }
      if c.offset > m.total { return Fail(Overflow); }
      if c.offset < cursor { return Fail(Malformed); }
      if !allowGaps && c.offset != cursor { return Fail(Malformed); }
      if WrapAdd(c.offset, c.logicalLength) > m.total { return Fail(LengthMismatch); }
      ids := ids + {c.id};
      cursor := WrapAdd(c.offset, c.logicalLength);
    }
    if cursor != m.total { return Fail(LengthMismatch); }
    if m.chunks == [] { return Fail(Malformed); }
    o := Pass;
  }

  // ----- What acceptance means, in mathematical integers -----

  /** Chunks laid end to end from `start` to `end`. */
  ghost predicate Tiles(cs: seq<Chunk>, start: nat, end: nat) {
    if cs == [] then start == end
    else cs[0].offset == start && Tiles(cs[1..], start + cs[0].logicalLength, end)
  }

  ghost predicate WellFormedChunk(c: Chunk) {
    c.id != 0 && c.blob != 0 && !IsZero(c.digest) && c.logicalLength > 0 && c.physicalLength > 0
  }

  ghost predicate DistinctIds(cs: seq<Chunk>) {
    forall i, j :: 0 <= i < j < |cs| ==> cs[i].id != cs[j].id
  }

  /** The manifests a reader can rely on. */
  ghost predicate Covers(m: Manifest) {
    && m.id != 0 && m.obj != 0 && m.total > 0 && !IsZero(m.digest)
    && (forall c <- m.chunks :: WellFormedChunk(c))
    && DistinctIds(m.chunks)
    && Tiles(m.chunks, 0, m.total)
  }

  lemma {:induction false} TilesBounds(cs: seq<Chunk>, start: nat, end: nat)
    requires Tiles(cs, start, end) && forall c <- cs :: c.logicalLength > 0
    ensures start <= end
    ensures forall c <- cs :: start <= c.offset && c.offset + c.logicalLength <= end
    ensures Sorted(cs)
    decreases |cs|
  {
    if cs != [] {
      var rest := start + cs[0].logicalLength;
      TilesBounds(cs[1..], rest, end);
      forall i, j | 0 <= i < j < |cs|
        ensures Before(cs[i], cs[j])
      {
        assert cs[j] == cs[1..][j - 1];
        if i > 0 {
          assert cs[i] == cs[1..][i - 1];
        }
      }
    }
  }

  ghost predicate Acceptable(cs: seq<Chunk>, total: nat, seen: set<Id>, cursor: nat) {
    && (forall c <- cs :: WellFormedChunk(c) && c.id !in seen)
    && DistinctIds(cs) && Tiles(cs, cursor, total)
  }

  lemma AcceptableCons(cs: seq<Chunk>, total: nat, seen: set<Id>, cursor: nat)
    requires cs != []
    ensures Acceptable(cs, total, seen, cursor) <==>
      && WellFormedChunk(cs[0]) && cs[0].id !in seen && cs[0].offset == cursor
      && Acceptable(cs[1..], total, seen + {cs[0].id}, cursor + cs[0].logicalLength)
  {
    hide WellFormedChunk;
    DistinctCons(cs);
    assert cs == [cs[0]] + cs[1..];
  }

  /** In order, the strict check accepts tilings and nothing else. */
  lemma {:induction false} CheckAccepts(cs: seq<Chunk>, total: U64, seen: set<Id>, cursor: U64)
    requires Sorted(cs) && cursor <= total
    ensures CheckChunks(cs, total, seen, cursor, false) == Pass <==> Acceptable(cs, total, seen, cursor)
    decreases |cs|
  {
    if cs != [] {
      hide IsZero, Acceptable, Tiles, DistinctIds;
      var c := cs[0];
      var end := c.offset + c.logicalLength;
      AcceptableCons(cs, total, seen, cursor);
      if end <= total {
        CheckAccepts(cs[1..], total, seen + {c.id}, end);
      } else {
        WrappedRejected(cs, total, seen, cursor);
        OverrunUnacceptable(cs, total, seen, cursor);
      }
    }
  }

  lemma OverrunUnacceptable(cs: seq<Chunk>, total: nat, seen: set<Id>, cursor: nat)
    requires cs != [] && cs[0].offset + cs[0].logicalLength > total
    ensures !Acceptable(cs, total, seen, cursor)
  {
    if Acceptable(cs, total, seen, cursor) {
      TilesBounds(cs, cursor, total);
    }
  }

  lemma DistinctCons(cs: seq<Chunk>)
    requires cs != []
    ensures DistinctIds(cs) <==> DistinctIds(cs[1..]) && forall d <- cs[1..] :: d.id != cs[0].id
  {
    var rest := cs[1..];
    assert forall i :: 0 <= i < |rest| ==> rest[i] == cs[i + 1];
    if DistinctIds(rest) && forall d <- rest :: d.id != cs[0].id {
      forall i, j | 0 <= i < j < |cs|
        ensures cs[i].id != cs[j].id
      {
        assert cs[j] == rest[j - 1];
        if i > 0 {
          assert cs[i] == rest[i - 1];
        }
      }
    }
  }

  /** A chunk that runs past the total is refused at once, or wraps to a cursor below its own offset;
      the next chunk, being in order, then leaves a gap, and at the end the cursor misses the total. */
  lemma WrappedRejected(cs: seq<Chunk>, total: U64, seen: set<Id>, cursor: U64)
    requires Sorted(cs) && cs != [] && cs[0].offset + cs[0].logicalLength > total
    ensures CheckChunks(cs, total, seen, cursor, false).Fail?
  {
    var c := cs[0];
    if CheckChunk(c, total, seen, cursor, false).Pass? {
      var wrapped := WrapAdd(c.offset, c.logicalLength);
      assert wrapped == c.offset + c.logicalLength - TWO_64 < c.offset;
      if |cs| > 1 {
        assert Before(cs[0], cs[1]);
        assert cs[1..][0] == cs[1];
      }
    }
  }

  /** Strict validation accepts exactly the manifests that tile the object. */
  lemma ValidationIsTiling(m: Manifest)
    ensures Validation(m, false) == Pass <==> Covers(m)
  {
    if m.total != 0 {
      if Sorted(m.chunks) {
        CheckAccepts(m.chunks, m.total, {}, 0);
      } else if Covers(m) {
        TilesBounds(m.chunks, 0, m.total);
        assert false;
      }
    }
  }

  // ----- With gaps allowed the wrap-around is not caught -----

  ghost predicate Apart(cs: seq<Chunk>) {
    forall i, j :: 0 <= i < j < |cs| ==> cs[i].offset + cs[i].logicalLength <= cs[j].offset
  }

  /** Chunks inside the object and clear of each other. */
  ghost predicate Disjoint(m: Manifest) {
    (forall c <- m.chunks :: c.offset + c.logicalLength <= m.total) && Apart(m.chunks)
  }

  ghost predicate NoWrap(m: Manifest) {
    forall c <- m.chunks :: c.offset + c.logicalLength < TWO_64
  }

  lemma ApartCons(cs: seq<Chunk>)
    requires cs != [] && Apart(cs[1..]) && forall c <- cs[1..] :: cs[0].offset + cs[0].logicalLength <= c.offset
    ensures Apart(cs)
  {
    forall i, j | 0 <= i < j < |cs|
      ensures cs[i].offset + cs[i].logicalLength <= cs[j].offset
    {
      assert cs[j] == cs[1..][j - 1];
      if i > 0 {
        assert cs[i] == cs[1..][i - 1];
      }
    }
  }

  lemma {:induction false} GapsAccepted(cs: seq<Chunk>, total: U64, seen: set<Id>, cursor: U64)
    requires CheckChunks(cs, total, seen, cursor, true) == Pass
    requires forall c <- cs :: c.offset + c.logicalLength < TWO_64
    ensures (forall c <- cs :: cursor <= c.offset && c.offset + c.logicalLength <= total) && Apart(cs)
    decreases |cs|
  {
    hide IsZero, Apart;
    if cs == [] {
      NoneApart();
    } else {
      var rest := cs[1..];
      assert cs == [cs[0]] + rest;
      GapsAccepted(rest, total, seen + {cs[0].id}, WrapAdd(cs[0].offset, cs[0].logicalLength));
      ApartCons(cs);
    }
  }

  lemma NoneApart()
    ensures Apart([])
  {}

  /** An accepted manifest with gaps has disjoint chunks exactly when no chunk end wraps. */
  lemma GappedDisjointIffNoWrap(m: Manifest)
    requires Validation(m, true) == Pass
    ensures Disjoint(m) <==> NoWrap(m)
  {
    if NoWrap(m) {
      GapsAccepted(m.chunks, m.total, {}, 0);
    }
  }

  /** A chunk of length 2^64 - 1 at offset 2 of a ten-byte object is accepted when gaps are. */
  lemma GappedWrapAccepted()
    returns (m: Manifest)
    ensures Validation(m, true) == Pass && !NoWrap(m) && !Disjoint(m)
  {
    var d: Digest := [1];
    var a := Chunk(1, 1, 2, TWO_64 - 1, 1, d, 1, 0);
    var b := Chunk(2, 1, 3, 7, 7, d, 2, 0);
    m := Manifest(1, 1, 1, 1, 10, d, [a, b]);
    assert d[0] in d && !IsZero(d);
    assert m.chunks[0] in m.chunks && Sorted(m.chunks);
    assert WrapAdd(2, TWO_64 - 1) == 1;
    calc {
      CheckChunks([a, b], 10, {}, 0, true);
      { assert [a, b][1..] == [b]; assert CheckChunk(a, 10, {}, 0, true) == Pass; }
      CheckChunks([b], 10, {} + {1}, 1, true);
      { assert [b][1..] == []; assert CheckChunk(b, 10, {} + {1}, 1, true) == Pass; }
      CheckChunks([], 10, {} + {1} + {2}, 10, true);
      Pass;
    }
  }

  // ----- What a refusal says -----

  function Ids(cs: seq<Chunk>): set<Id> {
    set c | c in cs :: c.id
  }

  lemma TilesHead(cs: seq<Chunk>, start: nat, end: nat)
    requires cs != [] && Tiles(cs, start, end)
    ensures cs[0].offset == start && Tiles(cs[1..], start + cs[0].logicalLength, end)
  {}

  lemma StepPasses(cs: seq<Chunk>, total: U64, seen: set<Id>, cursor: U64)
    requires cs != [] && WellFormedChunk(cs[0]) && cs[0].id !in seen && cs[0].offset == cursor
    requires cs[0].offset + cs[0].logicalLength <= total
    ensures CheckChunks(cs, total, seen, cursor, false)
         == CheckChunks(cs[1..], total, seen + {cs[0].id}, cs[0].offset + cs[0].logicalLength, false)
  {
    hide IsZero;
  }

  /** Chunks that tile the beginning of the object pass, whatever follows. */
  lemma {:induction false} PrefixPasses(cs: seq<Chunk>, rest: seq<Chunk>, total: U64, seen: set<Id>, start: U64, end: U64)
    requires Tiles(cs, start, end) && end <= total && (forall c <- cs :: WellFormedChunk(c) && c.id !in seen) && DistinctIds(cs)
    ensures CheckChunks(cs + rest, total, seen, start, false) == CheckChunks(rest, total, seen + Ids(cs), end, false)
    decreases |cs|
  {
    hide IsZero, CheckChunks, DistinctIds, Tiles, WellFormedChunk;
    if cs == [] {
      NothingTiled(start, end);
      assert cs + rest == rest && seen + Ids(cs) == seen;
    } else {
      var c := cs[0];
      var next := c.offset + c.logicalLength;
      TilesHead(cs, start, end);
      EndsWithin(cs, start, end);
      DistinctCons(cs);
      assert cs == [c] + cs[1..];
      assert (cs + rest)[1..] == cs[1..] + rest;
      StepPasses(cs + rest, total, seen, start);
      PrefixPasses(cs[1..], rest, total, seen + {c.id}, next, end);
      assert seen + {c.id} + Ids(cs[1..]) == seen + Ids(cs);
    }
  }

  lemma NothingTiled(start: nat, end: nat)
    requires Tiles([], start, end)
    ensures start == end
  {}

  lemma EndsWithin(cs: seq<Chunk>, start: nat, end: nat)
    requires cs != [] && Tiles(cs, start, end) && forall c <- cs :: WellFormedChunk(c)
    ensures cs[0].offset + cs[0].logicalLength <= end
  {
    hide IsZero;
    TilesBounds(cs, start, end);
    assert cs[0] in cs;
  }

  /** The answer to a manifest whose first k chunks tile the beginning of the object and whose next one does not go on: by
      the first thing wrong with that chunk. */
  lemma FirstOffender(m: Manifest, k: nat, end: U64)
    requires m.id != 0 && m.obj != 0 && m.total > 0 && !IsZero(m.digest) && Sorted(m.chunks) && k < |m.chunks|
    requires Tiles(m.chunks[..k], 0, end) && end <= m.total && (forall c <- m.chunks[..k] :: WellFormedChunk(c))
    requires DistinctIds(m.chunks[..k])
    ensures var c, answer := m.chunks[k], Validation(m, false);
      && (c.id in Ids(m.chunks[..k]) ==> answer == Fail(DuplicateIdentity))
      && (c.id !in Ids(m.chunks[..k]) && (c.id == 0 || c.blob == 0) ==> answer == Fail(Malformed))
      && (c.id !in Ids(m.chunks[..k]) && c.id != 0 && c.blob != 0 ==>
           && (IsZero(c.digest) ==> answer == Fail(IntegrityMismatch))
           && (!IsZero(c.digest) && (c.logicalLength == 0 || c.physicalLength == 0) ==> answer == Fail(Malformed))
           && (WellFormedChunk(c) && c.offset > m.total ==> answer == Fail(Overflow))
           && (WellFormedChunk(c) && c.offset <= m.total && c.offset != end ==> answer == Fail(Malformed))
           && (WellFormedChunk(c) && c.offset == end && m.total < c.offset + c.logicalLength < TWO_64 ==>
                 answer == Fail(LengthMismatch)))
  {
    hide IsZero, Tiles;
    var front, rest := m.chunks[..k], m.chunks[k..];
    assert m.chunks == front + rest && rest[0] == m.chunks[k] && {} + Ids(front) == Ids(front);
    PrefixPasses(front, rest, m.total, {}, 0, end);
  }
}
