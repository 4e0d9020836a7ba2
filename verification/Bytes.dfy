/** Byte strings and fixed-width little-endian fields: the value level of bytes.h. */
module Bytes {

  type byte = bv8
  type bytes = seq<byte>

  /** The largest value an N-byte field can hold, plus one. */
  function Radix(width: nat): (r: nat)
    ensures r >= 1
  {
    if width == 0 then 1 else 256 * Radix(width - 1)
  }

  const TWO_16: nat := 0x1_0000
  const TWO_32: nat := 0x1_0000_0000
  const TWO_64: nat := 0x1_0000_0000_0000_0000

  lemma RadixValues()
    ensures Radix(1) == 256 && Radix(2) == TWO_16 && Radix(4) == TWO_32 && Radix(8) == TWO_64
  {
    assert Radix(3) == 256 * Radix(2);
    assert Radix(5) == 256 * Radix(4);
    assert Radix(6) == 256 * Radix(5);
    assert Radix(7) == 256 * Radix(6);
  }

  lemma ByteSucc(b: byte)
    requires b != 255
    ensures (b + 1) as nat == b as nat + 1
  {}

  lemma ByteInjective(a: byte, b: byte)
    requires a as nat == b as nat
    ensures a == b
  {}

  /** The byte whose value is n. */
  function ToByte(n: nat): (b: byte)
    requires n < 256
    ensures b as nat == n
  {
    if n == 0 then 0 else
    var b := ToByte(n - 1);
    assert b != 255;
    ByteSucc(b);
    b + 1
  }

  lemma ByteOfNat(b: byte)
    ensures b as nat < 256 && ToByte(b as nat) == b
  {
    ByteInjective(ToByte(b as nat), b);
  }

  /** The `width` low-order bytes of `n`, least significant first. */
  function Le(n: nat, width: nat): (s: bytes)
    ensures |s| == width
    decreases width
  {
    if width == 0 then [] else [ToByte(n % 256)] + Le(n / 256, width - 1)
  }

  /** The number a little-endian byte string denotes. */
  function UnLe(s: bytes): nat {
    if s == [] then 0 else s[0] as nat + 256 * UnLe(s[1..])
  }

  lemma {:induction false} UnLeBound(s: bytes)
    ensures UnLe(s) < Radix(|s|)
  {
    if s != [] {
      UnLeBound(s[1..]);
    }
  }

  /** Encoding keeps exactly the low-order bytes: a round trip modulo 256^width. */
  lemma {:induction false} LeRoundTrip(n: nat, width: nat)
    ensures n < Radix(width) ==> UnLe(Le(n, width)) == n
    decreases width
  {
    hide ToByte;
    if width > 0 {
      LeRoundTrip(n / 256, width - 1);
      assert Le(n, width)[0] as nat == n % 256;
      assert Le(n, width)[1..] == Le(n / 256, width - 1);
    }
  }

  /** Every byte string is the encoding of the number it denotes. */
  lemma {:induction false} UnLeRoundTrip(s: bytes)
    ensures Le(UnLe(s), |s|) == s
  {
    hide ToByte;
    if s != [] {
      UnLeRoundTrip(s[1..]);
      ByteOfNat(s[0]);
      FirstDigit(s[0] as nat, UnLe(s[1..]));
      assert s == [s[0]] + s[1..];
    }
  }

  lemma FirstDigit(low: nat, high: nat)
    requires low < 256
    ensures (low + 256 * high) % 256 == low && (low + 256 * high) / 256 == high
  {}

  /** The first byte of a field is the lowest. */
  lemma LowByte(n: nat, b: byte)
    requires n % 256 == b as nat
    ensures forall width: nat :: width > 0 ==> Le(n, width) == [b] + Le(n / 256, width - 1)
    ensures Le(n, 1) == [b]
  {
    hide ToByte;
    ByteInjective(ToByte(n % 256), b);
  }

  // ----- Bounded reading -----

  /** The outcome of reading one field: the value and the bytes after it. */
  datatype Parsed<+T> = Bad | Good(value: T, rest: bytes) {
    predicate IsFailure() {
      Bad?
    }

    function PropagateFailure<U>(): Parsed<U>
      requires Bad?
    {
      Bad
    }

    function Extract(): (T, bytes)
      requires Good?
    {
      (value, rest)
    }
  }

  function TakeBytes(s: bytes, n: nat): Parsed<bytes> {
    if |s| < n then Bad else Good(s[..n], s[n..])
  }

  function TakeLe(s: bytes, width: nat): Parsed<nat> {
    if |s| < width then Bad else Good(UnLe(s[..width]), s[width..])
  }

  /** A blob behind a 32-bit length. */
  function TakeBlob(s: bytes): Parsed<bytes> {
    var (n, rest) :- TakeLe(s, 4);
    TakeBytes(rest, n)
  }

  function Blob(b: bytes): bytes {
    Le(|b|, 4) + b
  }

  lemma TakeLeOfLe(n: nat, width: nat, rest: bytes)
    requires n < Radix(width)
    ensures TakeLe(Le(n, width) + rest, width) == Good(n, rest)
  {
    hide Le, UnLe, Radix;
    LeRoundTrip(n, width);
    assert (Le(n, width) + rest)[..width] == Le(n, width);
  }

  lemma LeOfTakeLe(s: bytes, width: nat)
    requires TakeLe(s, width).Good?
    ensures s == Le(TakeLe(s, width).value, width) + TakeLe(s, width).rest
    ensures TakeLe(s, width).value < Radix(width)
  {
    hide Le, UnLe, Radix;
    UnLeRoundTrip(s[..width]);
    UnLeBound(s[..width]);
    assert s == s[..width] + s[width..];
  }

  lemma TakeBlobOfBlob(b: bytes, rest: bytes)
    requires |b| < TWO_32
    ensures TakeBlob(Blob(b) + rest) == Good(b, rest)
  {
    hide Le, TakeLe;
    RadixValues();
    assert Blob(b) + rest == Le(|b|, 4) + (b + rest);
    TakeLeOfLe(|b|, 4, b + rest);
  }

  lemma BlobOfTakeBlob(s: bytes)
    requires TakeBlob(s).Good?
    ensures s == Blob(TakeBlob(s).value) + TakeBlob(s).rest
    ensures |TakeBlob(s).value| < TWO_32
  {
    hide Le, TakeLe, Radix;
    RadixValues();
    LeOfTakeLe(s, 4);
    var t := TakeLe(s, 4);
    assert t.rest == t.rest[..t.value] + t.rest[t.value..];
  }

  /** ByteReader: a cursor over a byte string that never runs past its end. */
  class ByteReader {
    const data: bytes
    var pos: nat

    constructor (data: bytes)
      ensures this.data == data && Valid() && Rest() == data
    {
      this.data := data;
      pos := 0;
    }

    ghost predicate Valid()
      reads this
    {
      pos <= |data|
    }

    function Rest(): bytes
      requires Valid()
      reads this
    {
      data[pos..]
    }

    /** read_u8, read_u16, read_u32 and read_u64, by width. */
    method ReadLe(width: nat) returns (ok: bool, v: nat)
      requires Valid()
      modifies this`pos
      ensures Valid()
      ensures ok == TakeLe(old(Rest()), width).Good?
      ensures ok ==> TakeLe(old(Rest()), width) == Good(v, Rest())
      ensures !ok ==> pos == old(pos)
    {
      v := 0;
      if |data| - pos < width {
        return false, 0;
      }
      var i := width;
      while i > 0
        invariant 0 <= i <= width && pos == old(pos)
        invariant v == UnLe(data[pos + i..pos + width])
      {
        i := i - 1;
        assert data[pos + i..pos + width][1..] == data[pos + i + 1..pos + width];
        v := data[pos + i] as nat + 256 * v;
      }
      assert data[pos..][..width] == data[pos..pos + width];
      assert data[pos..][width..] == data[pos + width..];
      pos := pos + width;
      ok := true;
    }

    method ReadBytes(n: nat) returns (ok: bool, b: bytes)
      requires Valid()
      modifies this`pos
      ensures Valid()
      ensures ok == TakeBytes(old(Rest()), n).Good?
      ensures ok ==> TakeBytes(old(Rest()), n) == Good(b, Rest())
      ensures !ok ==> pos == old(pos)
    {
      if |data| - pos < n {
        return false, [];
      }
      b := data[pos..pos + n];
      assert data[pos..][..n] == b && data[pos..][n..] == data[pos + n..];
      pos := pos + n;
      ok := true;
    }

    method ReadBlob() returns (ok: bool, b: bytes)
      requires Valid()
      modifies this`pos
      ensures Valid()
      ensures ok == TakeBlob(old(Rest())).Good?
      ensures ok ==> TakeBlob(old(Rest())) == Good(b, Rest())
    {
      var n;
      ok, n := ReadLe(4);
      if !ok {
        return false, [];
      }
      ok, b := ReadBytes(n);
    }
  }

  /** ByteWriter: a growing buffer of little-endian fields. */
  class ByteWriter {
    var buf: bytes

    constructor ()
      ensures buf == []
    {
      buf := [];
    }

    /** put_u8, put_u16, put_u32 and put_u64, by width: the value is cut to its field. */
    method PutLe(v: nat, width: nat)
      modifies this
      ensures buf == old(buf) + Le(v, width)
    {
      var n := v;
      for i := 0 to width
        invariant buf + Le(n, width - i) == old(buf) + Le(v, width)
      {
        assert Le(n, width - i) == [ToByte(n % 256)] + Le(n / 256, width - i - 1);
        buf := buf + [ToByte(n % 256)];
        n := n / 256;
      }
    }

    method PutBytes(b: bytes)
      modifies this
      ensures buf == old(buf) + b
    {
      buf := buf + b;
    }

    method PutBlob(b: bytes)
      modifies this
      ensures buf == old(buf) + Blob(b)
    {
      PutLe(|b|, 4);
      PutBytes(b);
    }
  }
}
