/** Binary layouts: what the enc_ and dec_ functions of src/persist.cpp do field by field, given as a list of
    fields, and the two round trips that hold for every layout. */
module Layout {
  import opened Bytes

  const MAX_STRING: nat := 0x10_0000
  const MAX_RECORDS: nat := 0x100_0000

  /** A field: a little-endian number the decoder wants below a limit, a string, a 32-byte digest, a group of
      fields, or a counted list the decoder wants no longer than `most`. */
  datatype Format =
    | Num(width: nat, limit: nat)
    | Text
    | Digest32
    | Group(fields: seq<Format>)
    | List(item: Format, most: nat)

  datatype Datum = N(n: nat) | T(s: bytes) | G(fields: seq<Datum>) | L(items: seq<Datum>)

  // ----- What can be written, what can be read back -----

  /** The value has the field's type; the encoder takes it unless a string or list is over the cap. */
  ghost predicate Typed(d: Datum, f: Format)
    decreases f, 0
  {
    match (d, f)
    case (N(n), Num(width, _)) => n < Radix(width)
    case (T(_), Text) => true
    case (T(s), Digest32) => |s| == 32
    case (G(ds), Group(fs)) => TypedAll(ds, fs)
    case (L(items), List(item, _)) => forall i <- items :: Typed(i, item)
    case _ => false
  }

  ghost predicate TypedAll(ds: seq<Datum>, fs: seq<Format>)
    decreases fs, 1
  {
    if fs == [] then ds == []
    else ds != [] && Typed(ds[0], fs[0]) && TypedAll(ds[1..], fs[1..])
  }

  /** The caps the encoders check. */
  predicate Encodable(d: Datum) {
    match d
    case N(_) => true
    case T(s) => |s| <= MAX_STRING
    case G(ds) => forall x <- ds :: Encodable(x)
    case L(items) => |items| <= MAX_RECORDS && forall x <- items :: Encodable(x)
  }

  /** The limits the decoders check besides. */
  ghost predicate Decodable(d: Datum, f: Format)
    decreases f, 0
  {
    match (d, f)
    case (N(n), Num(_, limit)) => n < limit
    case (T(s), Text) => |s| <= MAX_STRING
    case (T(s), Digest32) => true
    case (G(ds), Group(fs)) => DecodableAll(ds, fs)
    case (L(items), List(item, most)) => |items| <= most && forall i <- items :: Decodable(i, item)
    case _ => false
  }

  ghost predicate DecodableAll(ds: seq<Datum>, fs: seq<Format>)
    decreases fs, 1
  {
    if fs == [] then ds == []
    else ds != [] && Decodable(ds[0], fs[0]) && DecodableAll(ds[1..], fs[1..])
  }

  // ----- Encoding and decoding -----

  function Encode(d: Datum, f: Format): bytes
    decreases f, 0, 0
  {
    match (d, f)
    case (N(n), Num(width, _)) => Le(n, width)
    case (T(s), _) => Blob(s)
    case (G(ds), Group(fs)) => EncodeAll(ds, fs)
    case (L(items), List(item, _)) => Le(|items|, 4) + EncodeItems(items, item)
    case _ => []
  }

  function EncodeAll(ds: seq<Datum>, fs: seq<Format>): bytes
    decreases fs, 1, 0
  {
    if ds == [] || fs == [] then [] else Encode(ds[0], fs[0]) + EncodeAll(ds[1..], fs[1..])
  }

  function EncodeItems(items: seq<Datum>, f: Format): bytes
    decreases f, 1, |items|
  {
    if items == [] then [] else Encode(items[0], f) + EncodeItems(items[1..], f)
  }

  function Take(s: bytes, f: Format): Parsed<Datum>
    decreases f, 0, 0
  {
    match f
    case Num(width, limit) =>
      var (n, rest) :- TakeLe(s, width);
      if n >= limit then Bad else Good(N(n), rest)
    case Text =>
      var (b, rest) :- TakeBlob(s);
      if |b| > MAX_STRING then Bad else Good(T(b), rest)
    case Digest32 =>
      var (b, rest) :- TakeBlob(s);
      if |b| != 32 then Bad else Good(T(b), rest)
    case Group(fs) =>
      var (ds, rest) :- TakeAll(s, fs);
      Good(G(ds), rest)
    case List(item, most) =>
      var (n, r) :- TakeLe(s, 4);
      if n > most then Bad
      else
        var (items, rest) :- TakeItems(r, item, n);
        Good(L(items), rest)
  }

  function TakeAll(s: bytes, fs: seq<Format>): Parsed<seq<Datum>>
    decreases fs, 1, 0
  {
    if fs == [] then Good([], s)
    else
      var (d, r) :- Take(s, fs[0]);
      var (ds, rest) :- TakeAll(r, fs[1..]);
      Good([d] + ds, rest)
  }

  function TakeItems(s: bytes, f: Format, n: nat): Parsed<seq<Datum>>
    decreases f, 1, n
  {
    if n == 0 then Good([], s)
    else
      var (d, r) :- Take(s, f);
      var (ds, rest) :- TakeItems(r, f, n - 1);
      Good([d] + ds, rest)
  }

  // ----- Decoding what was encoded -----

  /** A layout the encoders and decoders agree on: numbers and counts fit their fields. */
  ghost predicate Sensible(f: Format)
    decreases f, 0
  {
    match f
    case Num(width, limit) => limit <= Radix(width)
    case Group(fs) => forall x <- fs :: Sensible(x)
    case List(item, most) => most <= MAX_RECORDS && Sensible(item)
    case _ => true
  }

  /** Decoding an encoding, with anything after it, gives the value back when it is within the decoder's limits
      and fails when it is not. */
  lemma {:induction false} TakeOfEncode(d: Datum, f: Format, rest: bytes)
    requires Typed(d, f) && Encodable(d)
    ensures Take(Encode(d, f) + rest, f) == if Decodable(d, f) then Good(d, rest) else Bad
    decreases f, 0, 0
  {
    hide Le, TakeLe, TakeBlob, Blob, Radix;
    match (d, f)
    case (N(n), Num(width, _)) => TakeLeOfLe(n, width, rest);
    case (T(s), Text) => TakeBlobOfBlob(s, rest);
    case (T(s), Digest32) => TakeBlobOfBlob(s, rest);
    case (G(ds), Group(fs)) => TakeAllOfEncode(ds, fs, rest);
    case (L(items), List(item, most)) =>
      RadixValues();
      var es := EncodeItems(items, item);
      assert (Le(|items|, 4) + es) + rest == Le(|items|, 4) + (es + rest);
      TakeLeOfLe(|items|, 4, es + rest);
      TakeItemsOfEncode(items, item, rest);
  }

  lemma {:induction false} TakeAllOfEncode(ds: seq<Datum>, fs: seq<Format>, rest: bytes)
    requires TypedAll(ds, fs) && forall x <- ds :: Encodable(x)
    ensures TakeAll(EncodeAll(ds, fs) + rest, fs) == if DecodableAll(ds, fs) then Good(ds, rest) else Bad
    decreases fs, 1, 0
  {
    hide Typed, Encodable, Decodable, Encode, Take;
    if fs == [] {
      assert [] + rest == rest;
    } else {
      var tail := EncodeAll(ds[1..], fs[1..]);
      assert (Encode(ds[0], fs[0]) + tail) + rest == Encode(ds[0], fs[0]) + (tail + rest);
      TakeOfEncode(ds[0], fs[0], tail + rest);
      TakeAllOfEncode(ds[1..], fs[1..], rest);
      assert ds == [ds[0]] + ds[1..];
    }
  }

  lemma {:induction false} TakeItemsOfEncode(items: seq<Datum>, f: Format, rest: bytes)
    requires forall x <- items :: Typed(x, f) && Encodable(x)
    ensures TakeItems(EncodeItems(items, f) + rest, f, |items|)
         == if forall x <- items :: Decodable(x, f) then Good(items, rest) else Bad
    decreases f, 1, |items|
  {
    hide Typed, Encodable, Decodable, Encode, Take;
    if items == [] {
      assert [] + rest == rest;
    } else {
      var tail := EncodeItems(items[1..], f);
      assert (Encode(items[0], f) + tail) + rest == Encode(items[0], f) + (tail + rest);
      TakeOfEncode(items[0], f, tail + rest);
      TakeItemsOfEncode(items[1..], f, rest);
      assert items == [items[0]] + items[1..];
    }
  }

  // ----- Encoding what was decoded -----

  /** Whatever decodes is within all limits and encodes to the bytes it was decoded from. */
  lemma {:induction false} EncodeOfTake(s: bytes, f: Format)
    requires Sensible(f) && Take(s, f).Good?
    ensures var t := Take(s, f);
      Typed(t.value, f) && Encodable(t.value) && Decodable(t.value, f) && s == Encode(t.value, f) + t.rest
    decreases f, 0, 0
  {
    hide Le, TakeLe, TakeBlob, Blob, Radix;
    match f
    case Num(width, _) => LeOfTakeLe(s, width);
    case Text => BlobOfTakeBlob(s);
    case Digest32 => BlobOfTakeBlob(s);
    case Group(fs) => EncodeOfTakeAll(s, fs);
    case List(item, most) =>
      LeOfTakeLe(s, 4);
      var t := TakeLe(s, 4);
      EncodeOfTakeItems(t.rest, item, t.value);
      var u := TakeItems(t.rest, item, t.value);
      var es := EncodeItems(u.value, item);
      assert Le(t.value, 4) + (es + u.rest) == (Le(t.value, 4) + es) + u.rest;
  }

  lemma {:induction false} EncodeOfTakeAll(s: bytes, fs: seq<Format>)
    requires (forall x <- fs :: Sensible(x)) && TakeAll(s, fs).Good?
    ensures var t := TakeAll(s, fs);
      TypedAll(t.value, fs) && (forall x <- t.value :: Encodable(x)) && DecodableAll(t.value, fs)
      && s == EncodeAll(t.value, fs) + t.rest
    decreases fs, 1, 0
  {
    hide Typed, Encodable, Decodable, Encode, Take, Sensible;
    if fs == [] {
      assert s == [] + s;
    } else {
      EncodeOfTake(s, fs[0]);
      var t := Take(s, fs[0]);
      EncodeOfTakeAll(t.rest, fs[1..]);
      var u := TakeAll(t.rest, fs[1..]);
      assert ([t.value] + u.value)[1..] == u.value;
      assert Encode(t.value, fs[0]) + (EncodeAll(u.value, fs[1..]) + u.rest)
          == (Encode(t.value, fs[0]) + EncodeAll(u.value, fs[1..])) + u.rest;
    }
  }

  lemma {:induction false} EncodeOfTakeItems(s: bytes, f: Format, n: nat)
    requires Sensible(f) && TakeItems(s, f, n).Good?
    ensures var t := TakeItems(s, f, n);
      |t.value| == n && (forall x <- t.value :: Typed(x, f) && Encodable(x) && Decodable(x, f))
      && s == EncodeItems(t.value, f) + t.rest
    decreases f, 1, n
  {
    hide Typed, Encodable, Decodable, Encode, Take, Sensible;
    if n == 0 {
      assert s == [] + s;
    } else {
      EncodeOfTake(s, f);
      var t := Take(s, f);
      EncodeOfTakeItems(t.rest, f, n - 1);
      var u := TakeItems(t.rest, f, n - 1);
      assert ([t.value] + u.value)[1..] == u.value;
      assert Encode(t.value, f) + (EncodeItems(u.value, f) + u.rest)
          == (Encode(t.value, f) + EncodeItems(u.value, f)) + u.rest;
    }
  }

  // ----- The codec as it runs -----

  /** The enc_ functions: fields are appended until one is over its cap. */
  method Put(w: ByteWriter, d: Datum, f: Format) returns (ok: bool)
    requires Typed(d, f)
    modifies w
    ensures ok == Encodable(d)
    ensures ok ==> w.buf == old(w.buf) + Encode(d, f)
    decreases f, 0
  {
    hide Le, Blob, EncodeAll, EncodeItems, Radix;
    match d
    case N(n) =>
      w.PutLe(n, f.width);
      ok := true;
    case T(s) =>
      if |s| > MAX_STRING { return false; }
      w.PutBlob(s);
      ok := true;
    case G(ds) =>
      ok := PutAll(w, ds, f.fields);
    case L(items) =>
      if |items| > MAX_RECORDS { return false; }
      w.PutLe(|items|, 4);
      ok := PutItems(w, items, f.item);
      JoinBytes(old(w.buf), Le(|items|, 4), EncodeItems(items, f.item));
  }

  lemma JoinBytes(a: bytes, b: bytes, c: bytes)
    ensures (a + b) + c == a + (b + c)
  {}

  method PutAll(w: ByteWriter, ds: seq<Datum>, fs: seq<Format>) returns (ok: bool)
    requires TypedAll(ds, fs)
    modifies w
    ensures ok <==> forall x <- ds :: Encodable(x)
    ensures ok ==> w.buf == old(w.buf) + EncodeAll(ds, fs)
    decreases fs, 1
  {
    hide Encode, Encodable, Typed;
    ghost var done: bytes := [];
    TypedLength(ds, fs);
    for i := 0 to |ds|
      invariant TypedAll(ds[i..], fs[i..])
      invariant forall j :: 0 <= j < i ==> Encodable(ds[j])
      invariant w.buf == old(w.buf) + done && done + EncodeAll(ds[i..], fs[i..]) == EncodeAll(ds, fs)
    {
      assert ds[i..][1..] == ds[i + 1..] && fs[i..][1..] == fs[i + 1..];
      ok := Put(w, ds[i], fs[i]);
      if !ok { return; }
      JoinBytes(done, Encode(ds[i], fs[i]), EncodeAll(ds[i + 1..], fs[i + 1..]));
      JoinBytes(old(w.buf), done, Encode(ds[i], fs[i]));
      done := done + Encode(ds[i], fs[i]);
    }
    assert done + [] == done;
    ok := true;
  }

  lemma {:induction false} TypedLength(ds: seq<Datum>, fs: seq<Format>)
    requires TypedAll(ds, fs)
    ensures |ds| == |fs|
    decreases |fs|
  {
    if fs != [] {
      TypedLength(ds[1..], fs[1..]);
    }
  }

  method PutItems(w: ByteWriter, items: seq<Datum>, f: Format) returns (ok: bool)
    requires forall x <- items :: Typed(x, f)
    modifies w
    ensures ok <==> forall x <- items :: Encodable(x)
    ensures ok ==> w.buf == old(w.buf) + EncodeItems(items, f)
    decreases f, 1
  {
    hide Encode, Encodable, Typed;
    ghost var done: bytes := [];
    for i := 0 to |items|
      invariant forall j :: 0 <= j < i ==> Encodable(items[j])
      invariant w.buf == old(w.buf) + done && done + EncodeItems(items[i..], f) == EncodeItems(items, f)
    {
      assert items[i..][1..] == items[i + 1..];
      ok := Put(w, items[i], f);
      if !ok { return; }
      JoinBytes(done, Encode(items[i], f), EncodeItems(items[i + 1..], f));
      JoinBytes(old(w.buf), done, Encode(items[i], f));
      done := done + Encode(items[i], f);
    }
    assert done + [] == done;
    ok := true;
  }

  /** The dec_ functions: the first field that is missing or out of range ends the reading. */
  method Read(r: ByteReader, f: Format) returns (ok: bool, d: Datum)
    requires r.Valid()
    modifies r`pos
    ensures r.Valid()
    ensures ok == Take(old(r.Rest()), f).Good?
    ensures ok ==> Take(old(r.Rest()), f) == Good(d, r.Rest())
    decreases f, 0
  {
    hide TakeLe, TakeBlob, TakeAll, TakeItems;
    d := N(0);
    match f
    case Num(width, limit) =>
      var n;
      ok, n := r.ReadLe(width);
      if ok && n >= limit { ok := false; }
      d := N(n);
    case Text =>
      var b;
      ok, b := r.ReadBlob();
      if ok && |b| > MAX_STRING { ok := false; }
      d := T(b);
    case Digest32 =>
      var b;
      ok, b := r.ReadBlob();
      if ok && |b| != 32 { ok := false; }
      d := T(b);
    case Group(fs) =>
      var ds;
      ok, ds := ReadAll(r, fs);
      d := G(ds);
    case List(item, most) =>
      var n, items;
      ok, n := r.ReadLe(4);
      if !ok { return; }
      if n > most { return false, d; }
      ok, items := ReadItems(r, item, n);
      d := L(items);
  }

  /** Values read before the rest of a list. */
  function Before(done: seq<Datum>, p: Parsed<seq<Datum>>): Parsed<seq<Datum>> {
    match p
    case Bad => Bad
    case Good(ds, rest) => Good(done + ds, rest)
  }

  lemma BeforeStep(done: seq<Datum>, d: Datum, p: Parsed<seq<Datum>>)
    ensures Before(done, Before([d], p)) == Before(done + [d], p)
    ensures Before([], p) == p
  {
    if p.Good? {
      assert done + ([d] + p.value) == (done + [d]) + p.value;
      assert [] + p.value == p.value;
    }
  }

  method ReadAll(r: ByteReader, fs: seq<Format>) returns (ok: bool, ds: seq<Datum>)
    requires r.Valid()
    modifies r`pos
    ensures r.Valid()
    ensures ok == TakeAll(old(r.Rest()), fs).Good?
    ensures ok ==> TakeAll(old(r.Rest()), fs) == Good(ds, r.Rest())
    decreases fs, 1
  {
    hide Take;
    ghost var all := TakeAll(r.Rest(), fs);
    ds := [];
    BeforeStep([], N(0), all);
    for i := 0 to |fs|
      invariant r.Valid() && Before(ds, TakeAll(r.Rest(), fs[i..])) == all
    {
      assert fs[i..][1..] == fs[i + 1..];
      var d;
      ok, d := Read(r, fs[i]);
      if !ok { return; }
      BeforeStep(ds, d, TakeAll(r.Rest(), fs[i + 1..]));
      ds := ds + [d];
    }
    assert ds + [] == ds;
    ok := true;
  }

  method ReadItems(r: ByteReader, f: Format, n: nat) returns (ok: bool, items: seq<Datum>)
    requires r.Valid()
    modifies r`pos
    ensures r.Valid()
    ensures ok == TakeItems(old(r.Rest()), f, n).Good?
    ensures ok ==> TakeItems(old(r.Rest()), f, n) == Good(items, r.Rest())
    decreases f, 1
  {
    hide Take;
    ghost var all := TakeItems(r.Rest(), f, n);
    items := [];
    BeforeStep([], N(0), all);
    for i := 0 to n
      invariant r.Valid() && Before(items, TakeItems(r.Rest(), f, n - i)) == all
    {
      var d;
      ok, d := Read(r, f);
      if !ok { return; }
      BeforeStep(items, d, TakeItems(r.Rest(), f, n - i - 1));
      items := items + [d];
    }
    assert items + [] == items;
    ok := true;
  }
}
