/** ObjectDescriptor::compatibility: a std::map from string to string, as its entries in iteration order. */
module CompatMap {
  import opened Bytes
  import opened Status

  type KeyValue = (bytes, bytes)

  /** operator< on std::string: byte by byte, shorter first. */
  predicate Less(a: bytes, b: bytes) {
    if b == [] then false
    else if a == [] then true
    else if a[0] != b[0] then a[0] as nat < b[0] as nat
    else Less(a[1..], b[1..])
  }

  predicate HasKey(c: seq<KeyValue>, k: bytes) {
    exists e <- c :: e.0 == k
  }

  ghost predicate Ordered(c: seq<KeyValue>) {
    forall i, j :: 0 <= i < j < |c| ==> Less(c[i].0, c[j].0)
  }

  ghost predicate DistinctKeys(c: seq<KeyValue>) {
    forall i, j :: 0 <= i < j < |c| ==> c[i].0 != c[j].0
  }

  function Inserted(c: seq<KeyValue>, e: KeyValue): seq<KeyValue> {
    if c == [] then [e]
    else if Less(e.0, c[0].0) then [e] + c
    else [c[0]] + Inserted(c[1..], e)
  }

  /** The map built from the entries one after the other, unless a key comes twice. */
  function Entries(es: seq<KeyValue>): Option<seq<KeyValue>>
    decreases |es|
  {
    if es == [] then Some([])
    else
      var e := es[|es| - 1];
      match Entries(es[..|es| - 1])
      case None => None
      case Some(c) => if HasKey(c, e.0) then None else Some(Inserted(c, e))
  }

  // ----- The order on keys -----

  lemma {:induction false} LessIrreflexive(a: bytes)
    ensures !Less(a, a)
  {
    if a != [] {
      LessIrreflexive(a[1..]);
    }
  }

  lemma {:induction false} LessTotal(a: bytes, b: bytes)
    ensures a == b || Less(a, b) || Less(b, a)
  {
    if a != [] && b != [] && a[0] == b[0] {
      LessTotal(a[1..], b[1..]);
      assert a == [a[0]] + a[1..] && b == [b[0]] + b[1..];
    } else if a != [] && b != [] && a[0] as nat == b[0] as nat {
      ByteInjective(a[0], b[0]);
    }
  }

  lemma {:induction false} LessTransitive(a: bytes, b: bytes, c: bytes)
    requires Less(a, b) && Less(b, c)
    ensures Less(a, c)
  {
    if a != [] && a[0] == b[0] && b[0] == c[0] {
      LessTransitive(a[1..], b[1..], c[1..]);
    }
  }

  /** They agree on the first k bytes, and then a ends or has the smaller byte. */
  predicate DiffersAt(a: bytes, b: bytes, k: nat) {
    k <= |a| && k < |b| && a[..k] == b[..k] && (k == |a| || a[k] as nat < b[k] as nat)
  }

  /** The order of the keys is that of a dictionary. */
  lemma {:induction false} LessMeans(a: bytes, b: bytes)
    ensures Less(a, b) <==> exists k: nat :: DiffersAt(a, b, k)
  {
    if a == [] || b == [] || a[0] != b[0] {
      FirstByte(a, b);
    } else {
      LessMeans(a[1..], b[1..]);
      hide Less, DiffersAt;
      forall k: nat
        ensures DiffersAt(a[1..], b[1..], k) <==> DiffersAt(a, b, k + 1)
      {
        LaterByte(a, b, k);
      }
      SameFirst(a, b);
      if k: nat :| DiffersAt(a, b, k) {
        assert DiffersAt(a[1..], b[1..], k - 1);
      }
    }
  }

  lemma FirstByte(a: bytes, b: bytes)
    requires a == [] || b == [] || a[0] != b[0]
    ensures Less(a, b) <==> DiffersAt(a, b, 0)
    ensures forall k: nat :: k > 0 ==> !DiffersAt(a, b, k)
  {
    forall k: nat | k > 0
      ensures !DiffersAt(a, b, k)
    {
      assert k <= |a| && k < |b| ==> a[..k][0] == a[0] && b[..k][0] == b[0];
    }
  }

  lemma SameFirst(a: bytes, b: bytes)
    requires a != [] && b != [] && a[0] == b[0]
    ensures !DiffersAt(a, b, 0) && (Less(a, b) <==> Less(a[1..], b[1..]))
  {}

  lemma LaterByte(a: bytes, b: bytes, k: nat)
    requires a != [] && b != [] && a[0] == b[0]
    ensures DiffersAt(a[1..], b[1..], k) <==> DiffersAt(a, b, k + 1)
  {
    if k < |a| && k + 1 < |b| {
      assert a[..k + 1] == [a[0]] + a[1..][..k] && b[..k + 1] == [b[0]] + b[1..][..k];
    }
  }

  // ----- Building the map -----

  /** An entry goes to its place in the order. */
  lemma {:induction false} InsertedOrdered(c: seq<KeyValue>, e: KeyValue)
    requires Ordered(c) && !HasKey(c, e.0)
    ensures Ordered(Inserted(c, e))
    ensures forall x :: x in Inserted(c, e) <==> x in c || x == e
    decreases |c|
  {
    hide Less;
    if c != [] {
      var rest := c[1..];
      assert c == [c[0]] + rest;
      assert !HasKey(rest, e.0) && c[0] in c;
      LessTotal(c[0].0, e.0);
      InsertedOrdered(rest, e);
      if Less(e.0, c[0].0) {
        forall j | 0 < j < |c|
          ensures Less(e.0, c[j].0)
        {
          LessTransitive(e.0, c[0].0, c[j].0);
        }
        assert Inserted(c, e) == [e] + c;
      } else {
        OrderedCons(c[0], Inserted(rest, e));
      }
    }
  }

  lemma OrderedCons(e: KeyValue, c: seq<KeyValue>)
    requires Ordered(c) && forall x <- c :: Less(e.0, x.0)
    ensures Ordered([e] + c)
  {}

  /** An entry beyond all others goes last. */
  lemma {:induction false} InsertedLast(c: seq<KeyValue>, e: KeyValue)
    requires forall x <- c :: Less(x.0, e.0)
    ensures Inserted(c, e) == c + [e] && !HasKey(c, e.0)
    decreases |c|
  {
    hide Less;
    LessIrreflexive(e.0);
    if c != [] {
      var rest := c[1..];
      assert c == [c[0]] + rest && c[0] in c;
      InsertedLast(rest, e);
      if Less(e.0, c[0].0) {
        LessTransitive(c[0].0, e.0, c[0].0);
        LessIrreflexive(c[0].0);
      }
    }
  }

  /** Entries with distinct keys, in any order, make one map with the same entries in key order; a repeated key
      makes none. */
  lemma {:induction false} EntriesMeans(es: seq<KeyValue>)
    ensures Entries(es).Some? <==> DistinctKeys(es)
    ensures Entries(es).Some? ==> Ordered(Entries(es).value) && forall x :: x in Entries(es).value <==> x in es
    decreases |es|
  {
    hide Less, Ordered;
    if es == [] {
      EmptyOrdered();
    } else {
      var rest, e := es[..|es| - 1], es[|es| - 1];
      assert es == rest + [e];
      EntriesMeans(rest);
      match Entries(rest)
      case None =>
      case Some(c) =>
        assert DistinctKeys(es) <==> !HasKey(rest, e.0);
        if !HasKey(c, e.0) {
          InsertedOrdered(c, e);
        }
    }
  }

  lemma EmptyOrdered()
    ensures Ordered([])
  {}

  /** Entries already in key order make themselves. */
  lemma {:induction false} EntriesOfOrdered(es: seq<KeyValue>)
    requires Ordered(es)
    ensures Entries(es) == Some(es)
    decreases |es|
  {
    hide Less;
    if es != [] {
      var rest, e := es[..|es| - 1], es[|es| - 1];
      EntriesOfOrdered(rest);
      InsertedLast(rest, e);
      assert es == rest + [e];
    }
  }
}
