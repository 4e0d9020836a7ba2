/** src/runtime.cpp: the content-addressed part of the runtime. Chunks of published content become blobs of a
    backend; an index by digest shares them, and reference counts say when one may be deleted.
    A backend is a map from blob id to bytes, any of whose calls may fail. */
module BlobStore {
  import opened Bytes
  import opened Status
  import opened Model

  /** ContentDigest::of */
  type Hash = bytes -> Digest

  type Store = map<Id, bytes>

  /** blob_by_digest_, blob_digest_, blob_refs_, blob_sizes_ and blob_counter_. The index spans all backends. */
  datatype Blobs = Blobs(
    byDigest: map<Digest, Id>, digests: map<Id, Digest>, refs: map<Id, nat>, sizes: map<Id, nat>, next: Id)

  /** Which calls on the backend fail during an operation: put by blob, with the status it gives, remove by blob,
      read by its position. */
  datatype Faults = Faults(putFails: map<Id, StatusCode>, readFails: set<nat>, removeFails: set<Id>)

  const NO_FAULTS := Faults(map[], {}, {})

  function Refs(b: Blobs, id: Id): nat {
    if id in b.refs then b.refs[id] else 0
  }

  // ----- Writing chunks -----

  datatype Kept = Kept(outcome: Outcome, blobs: Blobs, store: Store, id: Id) {
    predicate ok() {
      outcome.Pass?
    }
  }

  /** One slice: shared with an indexed blob, or written as a new one. */
  function Keep(b: Blobs, store: Store, h: Hash, slice: bytes, dedupe: bool, faults: Faults): Kept {
    var d := h(slice);
    if d in b.byDigest && dedupe then
      var id := b.byDigest[d];
      Kept(Pass, b.(refs := b.refs[id := Refs(b, id) + 1]), store, id)
    else
      var id := b.next;
      if id in faults.putFails then Kept(Fail(faults.putFails[id]), b.(next := id + 1), store, id)
      else
        Kept(Pass,
             Blobs(b.byDigest[d := id], b.digests[id := d], b.refs[id := 1], b.sizes[id := |slice|], id + 1),
             store[id := slice], id)
  }

  datatype Written = Written(outcome: Outcome, blobs: Blobs, store: Store, chunks: seq<Chunk>) {
    predicate ok() {
      outcome.Pass?
    }

    function After(done: seq<Chunk>): Written {
      this.(chunks := done + chunks)
    }
  }

  function SliceLength(content: bytes, offset: nat, chunk: nat): (n: nat)
    requires offset < |content| && chunk > 0
    ensures 0 < n <= |content| - offset
  {
    if chunk < |content| - offset then chunk else |content| - offset
  }

  function ChunkFor(content: bytes, offset: nat, chunk: nat, d: Digest, blob: Id): Chunk
    requires offset < |content| < TWO_64 && chunk > 0
  {
    var n := SliceLength(content, offset, chunk);
    Chunk(offset + 1, 1, offset, n, n, d, blob, ORIGIN_WORKER)
  }

  /** The chunking loop of publish_to from `offset` on. */
  function WriteFrom(b: Blobs, store: Store, h: Hash, content: bytes, offset: nat, chunk: nat,
                     dedupe: bool, faults: Faults): Written
    requires offset <= |content| < TWO_64 && chunk > 0
    decreases |content| - offset
  {
    if offset == |content| then Written(Pass, b, store, [])
    else
      var n := SliceLength(content, offset, chunk);
      var slice := content[offset..offset + n];
      var k := Keep(b, store, h, slice, dedupe, faults);
      if !k.ok() then Written(k.outcome, k.blobs, k.store, [])
      else
        WriteFrom(k.blobs, k.store, h, content, offset + n, chunk, dedupe, faults)
          .After([ChunkFor(content, offset, chunk, h(slice), k.id)])
  }

  // ----- Reading chunks -----

  /** The eager verification: each chunk is read back and its digest recomputed. */
  function VerifyFrom(store: Store, h: Hash, cs: seq<Chunk>, i: nat, faults: Faults): Outcome
    requires i <= |cs|
    decreases |cs| - i
  {
    if i == |cs| then Pass
    else if i in faults.readFails || cs[i].blob !in store then Fail(IntegrityMismatch)
    else if h(store[cs[i].blob]) != cs[i].digest then Fail(DigestMismatch)
    else VerifyFrom(store, h, cs, i + 1, faults)
  }

  /** The loop of read: chunks are concatenated, each of the recorded length. */
  function ReadFrom(store: Store, cs: seq<Chunk>, i: nat, faults: Faults): Result<bytes>
    requires i <= |cs|
    decreases |cs| - i
  {
    if i == |cs| then Ok([])
    else if i in faults.readFails || cs[i].blob !in store then Err(IoError)
    else if |store[cs[i].blob]| != cs[i].physicalLength then Err(LengthMismatch)
    else
      match ReadFrom(store, cs, i + 1, faults)
      case Err(c) => Err(c)
      case Ok(rest) => Ok(store[cs[i].blob] + rest)
  }

  /** Eager verification stops at the first chunk that cannot be read, as IntegrityMismatch, or reads as other bytes, as
      DigestMismatch. */
  lemma {:induction false} FirstUnverified(store: Store, h: Hash, cs: seq<Chunk>, i: nat, k: nat, faults: Faults)
    requires i <= k < |cs|
    requires forall j :: i <= j < k ==> j !in faults.readFails && cs[j].blob in store && h(store[cs[j].blob]) == cs[j].digest
    ensures k in faults.readFails || cs[k].blob !in store ==> VerifyFrom(store, h, cs, i, faults) == Fail(IntegrityMismatch)
    ensures k !in faults.readFails && cs[k].blob in store && h(store[cs[k].blob]) != cs[k].digest ==>
      VerifyFrom(store, h, cs, i, faults) == Fail(DigestMismatch)
    decreases k - i
  {
    if i < k {
      FirstUnverified(store, h, cs, i + 1, k, faults);
    }
  }

  // ----- Dropping references -----

  datatype Dropped = Dropped(refs: map<Id, nat>, store: Store)

  /** One reference less; the last one takes the blob with it. */
  function DropOne(d: Dropped, id: Id, faults: Faults): Dropped {
    if id !in d.refs then d
    else
      var n := if d.refs[id] > 0 then d.refs[id] - 1 else 0;
      if n == 0 then
        Dropped(d.refs - {id}, if id in faults.removeFails then d.store else d.store - {id})
      else Dropped(d.refs[id := n], d.store)
  }

  function DropAll(d: Dropped, ids: seq<Id>, faults: Faults): Dropped
    decreases |ids|
  {
    if ids == [] then d else DropAll(DropOne(d, ids[0], faults), ids[1..], faults)
  }

  function BlobsOf(cs: seq<Chunk>): (ids: seq<Id>)
    ensures |ids| == |cs| && forall i :: 0 <= i < |cs| ==> ids[i] == cs[i].blob
  {
    if cs == [] then [] else [cs[0].blob] + BlobsOf(cs[1..])
  }

  function Count(ids: seq<Id>, id: Id): nat {
    if ids == [] then 0 else (if ids[0] == id then 1 else 0) + Count(ids[1..], id)
  }

  // ----- The index -----

  /** What the index and counts say about each other. */
  ghost predicate Indexed(b: Blobs) {
    && (forall d <- b.byDigest :: b.byDigest[d] in b.digests && b.digests[b.byDigest[d]] == d)
    && (forall id <- b.digests :: id < b.next)
    && (forall id <- b.refs :: id < b.next)
    && b.next > 0 && 0 !in b.digests
  }

  /** Nothing known about a blob is forgotten or changed, nor its bytes on a backend. */
  ghost predicate Grows(b: Blobs, store: Store, c: Blobs, store': Store) {
    && b.next <= c.next
    && (forall id <- b.digests :: id in c.digests && c.digests[id] == b.digests[id])
    && (forall id :: Refs(b, id) <= Refs(c, id))
    && (forall id :: id < b.next ==> (id in store <==> id in store'))
    && (forall id <- store :: id < b.next ==> store'[id] == store[id])
  }

  /** A slice that is not shared takes the next id, which is used up even when the put fails. */
  lemma NextIdTaken(b: Blobs, store: Store, h: Hash, slice: bytes, dedupe: bool, faults: Faults)
    ensures var k := Keep(b, store, h, slice, dedupe, faults);
      var shared := dedupe && h(slice) in b.byDigest;
      && k.id == (if shared then b.byDigest[h(slice)] else b.next)
      && k.blobs.next == (if shared then b.next else b.next + 1)
      && (k.ok() <==> shared || b.next !in faults.putFails)
  {}

  lemma KeepGrows(b: Blobs, store: Store, h: Hash, slice: bytes, dedupe: bool, faults: Faults)
    requires Indexed(b)
    ensures var k := Keep(b, store, h, slice, dedupe, faults);
      Indexed(k.blobs) && Grows(b, store, k.blobs, k.store)
      && (k.ok() ==> k.id != 0 && k.id in k.blobs.digests && k.blobs.digests[k.id] == h(slice))
      && (k.ok() ==> forall id :: Refs(k.blobs, id) == Refs(b, id) + (if id == k.id then 1 else 0))
  {
    var d := h(slice);
    if d in b.byDigest && dedupe {
      SharedGrows(b, store, b.byDigest[d]);
    } else {
      hide Indexed, Grows, Refs;
      FreshIndexed(b, d, |slice|);
      FreshGrows(b, store, d, slice);
    }
  }

  lemma SharedGrows(b: Blobs, store: Store, id: Id)
    requires Indexed(b) && id in b.digests
    ensures var c := b.(refs := b.refs[id := Refs(b, id) + 1]);
      Indexed(c) && Grows(b, store, c, store) && forall i :: Refs(c, i) == Refs(b, i) + if i == id then 1 else 0
  {}

  /** A new blob under the next id, or only the id used up. */
  function Fresh(b: Blobs, d: Digest, size: nat): Blobs {
    Blobs(b.byDigest[d := b.next], b.digests[b.next := d], b.refs[b.next := 1], b.sizes[b.next := size], b.next + 1)
  }

  lemma FreshIndexed(b: Blobs, d: Digest, size: nat)
    requires Indexed(b)
    ensures Indexed(Fresh(b, d, size)) && Indexed(b.(next := b.next + 1)) && b.next != 0
  {}

  lemma FreshGrows(b: Blobs, store: Store, d: Digest, slice: bytes)
    requires Indexed(b)
    ensures Grows(b, store, Fresh(b, d, |slice|), store[b.next := slice])
    ensures Grows(b, store, b.(next := b.next + 1), store)
    ensures forall i :: Refs(Fresh(b, d, |slice|), i) == Refs(b, i) + if i == b.next then 1 else 0
  {}

  /** One reference more for each chunk. */
  ghost predicate Counted(b: Blobs, w: Written) {
    forall id :: Refs(w.blobs, id) == Refs(b, id) + Count(BlobsOf(w.chunks), id)
  }

  /** Each chunk names a blob recorded with its digest. */
  ghost predicate Named(w: Written) {
    forall c <- w.chunks :: c.blob != 0 && c.blob in w.blobs.digests && w.blobs.digests[c.blob] == c.digest
  }

  /** Writing adds one reference for each chunk, and otherwise only grows the store. A failed run may leave
      references and blobs behind, never the reverse. */
  lemma {:induction false} WriteGrows(b: Blobs, store: Store, h: Hash, content: bytes, offset: nat, chunk: nat,
                                      dedupe: bool, faults: Faults)
    requires offset <= |content| < TWO_64 && chunk > 0 && Indexed(b)
    ensures var w := WriteFrom(b, store, h, content, offset, chunk, dedupe, faults);
      Indexed(w.blobs) && Grows(b, store, w.blobs, w.store) && (w.ok() ==> Counted(b, w) && Named(w))
    decreases |content| - offset
  {
    hide Keep, Indexed, Grows, Counted, Named, Refs;
    WroteNothing(b, store);
    if offset < |content| {
      var n := SliceLength(content, offset, chunk);
      var slice := content[offset..offset + n];
      KeepGrows(b, store, h, slice, dedupe, faults);
      var k := Keep(b, store, h, slice, dedupe, faults);
      if k.ok() {
        WriteGrows(k.blobs, k.store, h, content, offset + n, chunk, dedupe, faults);
        var rest := WriteFrom(k.blobs, k.store, h, content, offset + n, chunk, dedupe, faults);
        var c := ChunkFor(content, offset, chunk, h(slice), k.id);
        WriteStep(b, store, k, rest, c);
      }
    }
  }

  lemma WroteNothing(b: Blobs, store: Store)
    ensures var w := Written(Pass, b, store, []); Grows(b, store, b, store) && Counted(b, w) && Named(w)
  {}

  lemma WriteStep(b: Blobs, store: Store, k: Kept, rest: Written, c: Chunk)
    requires Grows(b, store, k.blobs, k.store) && Grows(k.blobs, k.store, rest.blobs, rest.store)
    requires c.blob == k.id != 0 && k.id in k.blobs.digests && k.blobs.digests[k.id] == c.digest
    requires forall id :: Refs(k.blobs, id) == Refs(b, id) + (if id == k.id then 1 else 0)
    ensures Grows(b, store, rest.blobs, rest.store)
    ensures rest.ok() && Counted(k.blobs, rest) && Named(rest) ==> Counted(b, rest.After([c])) && Named(rest.After([c]))
  {
    hide Refs, BlobsOf, Count;
    CountCons(c, rest.chunks);
  }

  lemma CountCons(c: Chunk, cs: seq<Chunk>)
    ensures forall id :: Count(BlobsOf([c] + cs), id) == (if id == c.blob then 1 else 0) + Count(BlobsOf(cs), id)
  {
    assert ([c] + cs)[1..] == cs;
    assert BlobsOf([c] + cs) == [c.blob] + BlobsOf(cs);
    assert ([c.blob] + BlobsOf(cs))[1..] == BlobsOf(cs);
  }

  lemma {:induction false} CountPositive(cs: seq<Chunk>, c: Chunk)
    requires c in cs
    ensures Count(BlobsOf(cs), c.blob) > 0
  {
    CountCons(cs[0], cs[1..]);
    assert cs == [cs[0]] + cs[1..];
    if cs[0] != c {
      CountPositive(cs[1..], c);
    }
  }

  // ----- Chunking tiles the content -----

  /** Chunks laid out in order from `offset`, each one slice of the content. */
  ghost predicate Slices(cs: seq<Chunk>, h: Hash, content: bytes, offset: nat)
    requires offset <= |content|
    decreases |cs|
  {
    if cs == [] then offset == |content|
    else
      && cs[0].offset == offset && cs[0].id == offset + 1
      && cs[0].logicalLength == cs[0].physicalLength > 0
      && offset + cs[0].logicalLength <= |content|
      && cs[0].digest == h(content[offset..offset + cs[0].logicalLength])
      && Slices(cs[1..], h, content, offset + cs[0].logicalLength)
  }

  /** k is n / d rounded up. */
  ghost predicate IsCeiling(k: nat, n: nat, d: nat) {
    if n == 0 then k == 0 else k > 0 && (k - 1) * d < n <= k * d
  }

  lemma CeilingStep(k: nat, n: nat, d: nat)
    requires n > 0 && d > 0 && IsCeiling(k, if d < n then n - d else 0, d)
    ensures IsCeiling(k + 1, n, d)
  {
    assert (k + 1) * d == k * d + d;
    if k > 0 {
      assert (k - 1) * d == k * d - d;
    }
  }

  lemma ZeroCeiling(d: nat)
    ensures IsCeiling(0, 0, d)
  {}

  lemma SlicesCons(h: Hash, content: bytes, offset: nat, chunk: nat, blob: Id, rest: seq<Chunk>)
    requires offset < |content| < TWO_64 && chunk > 0
    requires Slices(rest, h, content, offset + SliceLength(content, offset, chunk))
    ensures var n := SliceLength(content, offset, chunk);
      Slices([ChunkFor(content, offset, chunk, h(content[offset..offset + n]), blob)] + rest, h, content, offset)
  {
    var n := SliceLength(content, offset, chunk);
    var cs := [ChunkFor(content, offset, chunk, h(content[offset..offset + n]), blob)] + rest;
    assert cs[1..] == rest;
  }

  /** The loop ends for every chunk size, with as many chunks as the size needs, tiling the content. */
  lemma {:induction false} WriteSlices(b: Blobs, store: Store, h: Hash, content: bytes, offset: nat, chunk: nat,
                                       dedupe: bool, faults: Faults)
    requires offset <= |content| < TWO_64 && chunk > 0
    ensures var w := WriteFrom(b, store, h, content, offset, chunk, dedupe, faults);
      w.ok() ==> Slices(w.chunks, h, content, offset) && IsCeiling(|w.chunks|, |content| - offset, chunk)
    decreases |content| - offset
  {
    hide Keep, IsCeiling, Slices, ChunkFor, SliceLength;
    if offset == |content| {
      ZeroCeiling(chunk);
      NoSlices(h, content);
    } else {
      var n := SliceLength(content, offset, chunk);
      var slice := content[offset..offset + n];
      var k := Keep(b, store, h, slice, dedupe, faults);
      if k.ok() {
        WriteSlices(k.blobs, k.store, h, content, offset + n, chunk, dedupe, faults);
        var rest := WriteFrom(k.blobs, k.store, h, content, offset + n, chunk, dedupe, faults);
        if rest.ok() {
          SlicesCons(h, content, offset, chunk, k.id, rest.chunks);
          LeftAfter(content, offset, chunk);
          CeilingStep(|rest.chunks|, |content| - offset, chunk);
        }
      }
    }
  }

  lemma NoSlices(h: Hash, content: bytes)
    ensures Slices([], h, content, |content|)
  {}

  lemma LeftAfter(content: bytes, offset: nat, chunk: nat)
    requires offset < |content| && chunk > 0
    ensures var left := |content| - offset;
      |content| - (offset + SliceLength(content, offset, chunk)) == if chunk < left then left - chunk else 0
  {}

  // ----- Reading back -----

  ghost predicate Verified(store: Store, h: Hash, cs: seq<Chunk>) {
    forall c <- cs :: c.blob in store && h(store[c.blob]) == c.digest
  }

  lemma {:induction false} VerifyFromMeans(store: Store, h: Hash, cs: seq<Chunk>, i: nat, faults: Faults)
    requires i <= |cs|
    ensures VerifyFrom(store, h, cs, i, faults).Pass? ==> Verified(store, h, cs[i..])
    ensures VerifyFrom(store, h, cs, i, faults).Pass? <==>
      (forall j :: i <= j < |cs| ==> j !in faults.readFails) && Verified(store, h, cs[i..])
    decreases |cs| - i
  {
    if i < |cs| {
      VerifyFromMeans(store, h, cs, i + 1, faults);
      assert cs[i..] == [cs[i]] + cs[i + 1..];
      assert cs[i] in cs[i..];
    }
  }

  /** No stored blob shares its digest with a different slice of the content. */
  ghost predicate NoCollision(store: Store, h: Hash, content: bytes) {
    forall id, i, j :: id in store && 0 <= i <= j <= |content| && h(store[id]) == h(content[i..j])
      ==> store[id] == content[i..j]
  }

  /** Verified slices read back as the content. */
  lemma {:induction false} SlicesReadBack(store: Store, h: Hash, cs: seq<Chunk>, i: nat, content: bytes, offset: nat)
    requires i <= |cs| && offset <= |content|
    requires Slices(cs[i..], h, content, offset) && Verified(store, h, cs[i..]) && NoCollision(store, h, content)
    ensures ReadFrom(store, cs, i, NO_FAULTS) == Ok(content[offset..])
    decreases |cs| - i
  {
    if i < |cs| {
      var c := cs[i];
      var next := offset + c.logicalLength;
      assert cs[i..][0] == c && cs[i..][1..] == cs[i + 1..];
      assert c in cs[i..];
      assert forall d <- cs[i + 1..] :: d in cs[i..];
      SlicesReadBack(store, h, cs, i + 1, content, next);
      assert store[c.blob] == content[offset..next];
      assert content[offset..] == content[offset..next] + content[next..];
    }
  }

  /** Failing reads can only turn the answer into an I/O error. */
  lemma {:induction false} ReadFaults(store: Store, cs: seq<Chunk>, i: nat, faults: Faults)
    requires i <= |cs| && ReadFrom(store, cs, i, NO_FAULTS).Ok?
    ensures ReadFrom(store, cs, i, faults) == ReadFrom(store, cs, i, NO_FAULTS)
         || ReadFrom(store, cs, i, faults) == Err(IoError)
    decreases |cs| - i
  {
    if i < |cs| {
      ReadFaults(store, cs, i + 1, faults);
    }
  }

  /** Reading depends only on the blobs the chunks name. */
  lemma {:induction false} ReadSame(s: Store, t: Store, cs: seq<Chunk>, i: nat, faults: Faults)
    requires i <= |cs|
    requires forall c <- cs[i..] :: c.blob in s && c.blob in t && s[c.blob] == t[c.blob]
    ensures ReadFrom(s, cs, i, faults) == ReadFrom(t, cs, i, faults)
    decreases |cs| - i
  {
    if i < |cs| {
      assert cs[i..] == [cs[i]] + cs[i + 1..];
      ReadSame(s, t, cs, i + 1, faults);
    }
  }

  // ----- Dropping -----

  /** Dropping takes exactly the given references, and deletes only blobs left with none. */
  lemma {:induction false} DropAllMeans(d: Dropped, ids: seq<Id>, faults: Faults)
    ensures var e := DropAll(d, ids, faults);
      (forall id :: id in e.refs ==> id in d.refs)
      && (forall id :: RefIn(e.refs, id) == Monus(RefIn(d.refs, id), Count(ids, id)))
      && (forall id :: id in e.store ==> id in d.store && e.store[id] == d.store[id])
      && (forall id :: id in d.store && RefIn(e.refs, id) > 0 ==> id in e.store)
      && (forall id :: id in d.store && Count(ids, id) == 0 ==> id in e.store)
    decreases |ids|
  {
    if ids != [] {
      var n := DropOne(d, ids[0], faults);
      assert forall id :: RefIn(n.refs, id) == Monus(RefIn(d.refs, id), if id == ids[0] then 1 else 0);
      assert forall id :: id in n.store ==> id in d.store && n.store[id] == d.store[id];
      assert forall id :: id in d.store && id !in n.store ==> id == ids[0] && RefIn(n.refs, id) == 0;
      hide DropOne;
      DropAllMeans(n, ids[1..], faults);
    }
  }

  lemma DropOneEmpty(d: Dropped, id: Id, faults: Faults)
    ensures d.store == map[] ==> DropOne(d, id, faults).store == map[]
  {}

  function RefIn(refs: map<Id, nat>, id: Id): nat {
    if id in refs then refs[id] else 0
  }

  function Monus(a: nat, b: nat): nat {
    if a >= b then a - b else 0
  }
}
