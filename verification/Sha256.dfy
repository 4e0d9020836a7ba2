/** src/digest.cpp, second half: the buffered SHA-256 object, against FIPS 180-4. */
module Sha256 {
  import opened Bytes
  import opened Words

  // ----- Functions and constants of sections 4.1.2, 4.2.2 and 5.3.3 of FIPS 180-4 -----

  function Add(x: Word, y: Word): Word { Word(x.bits + y.bits) }
  function And(x: Word, y: Word): Word { Word(x.bits & y.bits) }
  function Not(x: Word): Word { Word(!x.bits) }
  function ShrBy(x: Word, n: bv32): Word requires n < 32 { Word(x.bits >> n) }

  function Rotr(x: Word, n: bv32): Word
    requires 0 < n < 32
  {
    Word((x.bits >> n) | (x.bits << (32 - n)))
  }

  function Ch(x: Word, y: Word, z: Word): Word { Xor(And(x, y), And(Not(x), z)) }
  function Maj(x: Word, y: Word, z: Word): Word { Xor(Xor(And(x, y), And(x, z)), And(y, z)) }
  function BigSigma0(x: Word): Word { Xor(Xor(Rotr(x, 2), Rotr(x, 13)), Rotr(x, 22)) }
  function BigSigma1(x: Word): Word { Xor(Xor(Rotr(x, 6), Rotr(x, 11)), Rotr(x, 25)) }
  function SmallSigma0(x: Word): Word { Xor(Xor(Rotr(x, 7), Rotr(x, 18)), ShrBy(x, 3)) }
  function SmallSigma1(x: Word): Word { Xor(Xor(Rotr(x, 17), Rotr(x, 19)), ShrBy(x, 10)) }

  /** Eight to a row. */
  const K: seq<seq<bv32>> := [
    [0x428a2f98, 0x71374491, 0xb5c0fbcf, 0xe9b5dba5, 0x3956c25b, 0x59f111f1, 0x923f82a4, 0xab1c5ed5],
    [0xd807aa98, 0x12835b01, 0x243185be, 0x550c7dc3, 0x72be5d74, 0x80deb1fe, 0x9bdc06a7, 0xc19bf174],
    [0xe49b69c1, 0xefbe4786, 0x0fc19dc6, 0x240ca1cc, 0x2de92c6f, 0x4a7484aa, 0x5cb0a9dc, 0x76f988da],
    [0x983e5152, 0xa831c66d, 0xb00327c8, 0xbf597fc7, 0xc6e00bf3, 0xd5a79147, 0x06ca6351, 0x14292967],
    [0x27b70a85, 0x2e1b2138, 0x4d2c6dfc, 0x53380d13, 0x650a7354, 0x766a0abb, 0x81c2c92e, 0x92722c85],
    [0xa2bfe8a1, 0xa81a664b, 0xc24b8b70, 0xc76c51a3, 0xd192e819, 0xd6990624, 0xf40e3585, 0x106aa070],
    [0x19a4c116, 0x1e376c08, 0x2748774c, 0x34b0bcb5, 0x391c0cb3, 0x4ed8aa4a, 0x5b9cca4f, 0x682e6ff3],
    [0x748f82ee, 0x78a5636f, 0x84c87814, 0x8cc70208, 0x90befffa, 0xa4506ceb, 0xbef9a3f7, 0xc67178f2]
  ]

  function RoundConstant(t: nat): Word
    requires t < 64
  {
    Word(K[t / 8][t % 8])
  }

  function IV(): (h: seq<Word>)
    ensures |h| == 8
  {
    [Word(0x6a09e667), Word(0xbb67ae85), Word(0x3c6ef372), Word(0xa54ff53a),
     Word(0x510e527f), Word(0x9b05688c), Word(0x1f83d9ab), Word(0x5be0cd19)]
  }

  // ----- Section 6.2.2: the compression of one block -----

  function MessageWord(p: bytes, i: nat): Word
    requires |p| == 64 && i < 16
  {
    Word(((p[4 * i] as bv32) << 24) | ((p[4 * i + 1] as bv32) << 16)
       | ((p[4 * i + 2] as bv32) << 8) | (p[4 * i + 3] as bv32))
  }

  function Expand(w16: Word, w15: Word, w7: Word, w2: Word): Word {
    Add(Add(Add(w16, SmallSigma0(w15)), w7), SmallSigma1(w2))
  }

  /** W_t of the message schedule. */
  function Schedule(p: bytes, t: nat): Word
    requires |p| == 64 && t < 64
  {
    if t < 16 then MessageWord(p, t)
    else Expand(Schedule(p, t - 16), Schedule(p, t - 15), Schedule(p, t - 7), Schedule(p, t - 2))
  }

  /** The eight working variables. */
  datatype Vars = Vars(a: Word, b: Word, c: Word, d: Word, e: Word, f: Word, g: Word, h: Word)

  function T1(v: Vars, k: Word, w: Word): Word {
    Add(Add(Add(Add(v.h, BigSigma1(v.e)), Ch(v.e, v.f, v.g)), k), w)
  }

  function T2(v: Vars): Word {
    Add(BigSigma0(v.a), Maj(v.a, v.b, v.c))
  }

  function Round(v: Vars, k: Word, w: Word): Vars {
    Vars(Add(T1(v, k, w), T2(v)), v.a, v.b, v.c, Add(v.d, T1(v, k, w)), v.e, v.f, v.g)
  }

  function Rounds(v: Vars, p: bytes, t: nat): Vars
    requires |p| == 64 && t <= 64
  {
    if t == 0 then v else Round(Rounds(v, p, t - 1), RoundConstant(t - 1), Schedule(p, t - 1))
  }

  function Compress(h: seq<Word>, p: bytes): (r: seq<Word>)
    requires |h| == 8 && |p| == 64
    ensures |r| == 8
  {
    var v := Rounds(Vars(h[0], h[1], h[2], h[3], h[4], h[5], h[6], h[7]), p, 64);
    [Add(h[0], v.a), Add(h[1], v.b), Add(h[2], v.c), Add(h[3], v.d),
     Add(h[4], v.e), Add(h[5], v.f), Add(h[6], v.g), Add(h[7], v.h)]
  }

  // ----- Sections 5.1.1 and 6.2.2: padding and the fold over blocks -----

  function Fold(h: seq<Word>, data: bytes): (r: seq<Word>)
    requires |h| == 8
    ensures |r| == 8
    decreases |data|
  {
    if |data| < 64 then h else Fold(Compress(h, data[..64]), data[64..])
  }

  /** The bit length of the message as section 5.1.1 writes it: 64 bits, most significant byte first. */
  function BigEndian(n: nat, width: nat): (s: bytes)
    ensures |s| == width
    decreases width
  {
    if width == 0 then [] else BigEndian(n / 256, width - 1) + [ToByte(n % 256)]
  }

  /** The least number of zero bytes that brings the padded length to 56 modulo 64. */
  function ZeroCount(length: nat): nat {
    (119 - length % 64) % 64
  }

  function Zeros(n: nat): (s: bytes)
    ensures |s| == n
  {
    seq(n, _ => 0)
  }

  function Pad(m: bytes): bytes {
    m + [0x80] + Zeros(ZeroCount(|m|)) + BigEndian((8 * |m|) % TWO_64, 8)
  }

  function WordBigEndian(w: Word): (s: bytes)
    ensures |s| == 4
  {
    [((w.bits >> 24) & 0xFF) as byte, ((w.bits >> 16) & 0xFF) as byte,
     ((w.bits >> 8) & 0xFF) as byte, (w.bits & 0xFF) as byte]
  }

  function Serialized(h: seq<Word>): bytes {
    if h == [] then [] else WordBigEndian(h[0]) + Serialized(h[1..])
  }

  /** SHA-256 of a message. */
  function Hash(m: bytes): bytes {
    Serialized(Fold(IV(), Pad(m)))
  }

  // ----- Lemmas about the reference -----

  lemma {:induction false} SerializedLength(h: seq<Word>)
    ensures |Serialized(h)| == 4 * |h|
    decreases |h|
  {
    hide WordBigEndian;
    if h != [] {
      SerializedLength(h[1..]);
    }
  }

  lemma HashLength(m: bytes)
    ensures |Hash(m)| == 32
  {
    hide Fold, IV, Pad, Serialized;
    SerializedLength(Fold(IV(), Pad(m)));
  }

  lemma {:induction false} FoldAppend(h: seq<Word>, data: bytes, block: bytes)
    requires |h| == 8 && |data| % 64 == 0 && |block| == 64
    ensures Fold(h, data + block) == Compress(Fold(h, data), block)
    decreases |data|
  {
    hide Compress;
    if data == [] {
      assert data + block == block;
      assert block[..64] == block && block[64..] == [];
    } else {
      FoldAppend(Compress(h, data[..64]), data[64..], block);
      assert (data + block)[..64] == data[..64];
      assert (data + block)[64..] == data[64..] + block;
    }
  }

  lemma {:induction false} SerializedAppend(h: seq<Word>, w: Word)
    ensures Serialized(h + [w]) == Serialized(h) + WordBigEndian(w)
    decreases |h|
  {
    hide WordBigEndian;
    if h == [] {
      assert h + [w] == [w];
    } else {
      SerializedAppend(h[1..], w);
      assert (h + [w])[1..] == h[1..] + [w];
    }
  }

  /** n >> (8 * k) */
  function ShrBytes(n: nat, k: nat): nat
    decreases k
  {
    if k == 0 then n else ShrBytes(n / 256, k - 1)
  }

  lemma {:induction false} BigEndianAt(n: nat, width: nat, i: nat)
    requires i < width
    ensures BigEndian(n, width)[i] == ToByte(ShrBytes(n, width - 1 - i) % 256)
    decreases width
  {
    hide ToByte;
    if i < width - 1 {
      BigEndianAt(n / 256, width - 1, i);
    }
  }

  lemma {:induction false} BigEndianInjective(a: nat, b: nat, width: nat)
    requires a < Radix(width) && b < Radix(width) && BigEndian(a, width) == BigEndian(b, width)
    ensures a == b
    decreases width
  {
    hide ToByte;
    if width > 0 {
      var s, t := BigEndian(a, width), BigEndian(b, width);
      assert s[..width - 1] == BigEndian(a / 256, width - 1);
      assert t[..width - 1] == BigEndian(b / 256, width - 1);
      assert s[width - 1] as nat == a % 256 && t[width - 1] as nat == b % 256;
      BigEndianInjective(a / 256, b / 256, width - 1);
    }
  }

  lemma MoreZeros(n: nat)
    ensures Zeros(n) + [0] == Zeros(n + 1)
    ensures Zeros(0) == []
  {}

  lemma PadLength(m: bytes)
    ensures |Pad(m)| % 64 == 0 && |Pad(m)| == |m| + 1 + ZeroCount(|m|) + 8
  {
    hide BigEndian, Zeros;
    ZerosFill(|m| / 64, |m| % 64);
  }

  lemma ZerosFill(block: nat, r: nat)
    requires r < 64
    ensures ZeroCount(64 * block + r) == if r <= 55 then 55 - r else 119 - r
    ensures (64 * block + r + 1 + ZeroCount(64 * block + r) + 8) % 64 == 0
  {
    assert (64 * block + r) % 64 == r;
    var next := if r <= 55 then block + 1 else block + 2;
    assert 64 * block + r + 1 + ZeroCount(64 * block + r) + 8 == 64 * next;
  }

  /** Padding is injective on messages shorter than 2^61 bytes, the limit of FIPS 180-4. */
  lemma PadInjective(a: bytes, b: bytes)
    requires 8 * |a| < TWO_64 && 8 * |b| < TWO_64 && Pad(a) == Pad(b)
    ensures a == b
  {
    hide BigEndian, Zeros;
    var p, q := Pad(a), Pad(b);
    assert p[|p| - 8..] == BigEndian(8 * |a|, 8);
    assert q[|q| - 8..] == BigEndian(8 * |b|, 8);
    RadixValues();
    BigEndianInjective(8 * |a|, 8 * |b|, 8);
    assert p[..|a|] == a && q[..|b|] == b;
  }

  // ----- The object -----

  lemma ScheduleStep(p: bytes, t: nat)
    requires |p| == 64 && t < 64
    ensures Schedule(p, t) == if t < 16 then MessageWord(p, t)
      else Expand(Schedule(p, t - 16), Schedule(p, t - 15), Schedule(p, t - 7), Schedule(p, t - 2))
  {}

  method FillSchedule(p: bytes) returns (w: array<Word>)
    requires |p| == 64
    ensures fresh(w) && w.Length == 64
    ensures forall j :: 0 <= j < 64 ==> w[j] == Schedule(p, j)
  {
    hide Expand, MessageWord, Schedule;
    w := new Word[64](_ => Word(0));
    for i := 0 to 16
      invariant forall j :: 0 <= j < i ==> w[j] == Schedule(p, j)
    {
      ScheduleStep(p, i);
      w[i] := MessageWord(p, i);
    }
    for i := 16 to 64
      invariant forall j :: 0 <= j < i ==> w[j] == Schedule(p, j)
    {
      ScheduleStep(p, i);
      w[i] := Expand(w[i - 16], w[i - 15], w[i - 7], w[i - 2]);
    }
  }

  /** The 64 rounds, each rotating the working variables in the order the code assigns them. */
  method RunRounds(start: Vars, w: array<Word>, ghost p: bytes) returns (v: Vars)
    requires |p| == 64 && w.Length == 64 && forall j :: 0 <= j < 64 ==> w[j] == Schedule(p, j)
    ensures v == Rounds(start, p, 64)
  {
    hide Schedule, Add, T1, T2, RoundConstant;
    var a, b, c, d, e, f, g, h := start.a, start.b, start.c, start.d, start.e, start.f, start.g, start.h;
    for i := 0 to 64
      invariant Vars(a, b, c, d, e, f, g, h) == Rounds(start, p, i)
    {
      v := Vars(a, b, c, d, e, f, g, h);
      var t1 := T1(v, RoundConstant(i), w[i]);
      var t2 := T2(v);
      h := g; g := f; f := e; e := Add(d, t1);
      d := c; c := b; b := a; a := Add(t1, t2);
    }
    v := Vars(a, b, c, d, e, f, g, h);
  }

  /** compress: the state is updated in place. */
  method CompressBlock(state: array<Word>, p: bytes)
    requires state.Length == 8 && |p| == 64
    modifies state
    ensures state[..] == Compress(old(state[..]), p)
  {
    hide Rounds, Schedule, Add;
    var w := FillSchedule(p);
    var v := RunRounds(Vars(state[0], state[1], state[2], state[3], state[4], state[5], state[6], state[7]), w, p);
    state[0] := Add(state[0], v.a); state[1] := Add(state[1], v.b);
    state[2] := Add(state[2], v.c); state[3] := Add(state[3], v.d);
    state[4] := Add(state[4], v.e); state[5] := Add(state[5], v.f);
    state[6] := Add(state[6], v.g); state[7] := Add(state[7], v.h);
  }

  /** What the fields of the object say about the bytes absorbed so far. */
  ghost predicate Holds(state: seq<Word>, bits: nat, buffer: bytes, len: nat, absorbed: bytes) {
    && len < 64 == |buffer| && len <= |absorbed| && (|absorbed| - len) % 64 == 0
    && buffer[..len] == absorbed[|absorbed| - len..]
    && state == Fold(IV(), absorbed[..|absorbed| - len])
    && bits == (8 * (|absorbed| - len)) % TWO_64
  }

  lemma HoldsInitially(buffer: bytes)
    requires |buffer| == 64
    ensures Holds(IV(), 0, buffer, 0, [])
  {}

  lemma ModAdd(a: nat, b: nat)
    ensures (a % TWO_64 + b) % TWO_64 == (a + b) % TWO_64
  {}

  /** Storing one byte at the write index, before the buffer is full. */
  lemma HoldsStored(state: seq<Word>, bits: nat, buffer: bytes, len: nat, absorbed: bytes, b: byte)
    requires Holds(state, bits, buffer, len, absorbed) && len < 63
    ensures Holds(state, bits, buffer[len := b], len + 1, absorbed + [b])
  {
    hide Fold, IV;
    var n := |absorbed| - len;
    assert (absorbed + [b])[..n] == absorbed[..n];
    assert (absorbed + [b])[n..] == absorbed[n..] + [b] == buffer[..len] + [b];
  }

  /** The 64th byte: the block is compressed and the index returns to zero. */
  lemma HoldsParts(state: seq<Word>, bits: nat, buffer: bytes, len: nat, absorbed: bytes)
    requires Holds(state, bits, buffer, len, absorbed)
    ensures len < 64 == |buffer| && len <= |absorbed| && (|absorbed| - len) % 64 == 0 && |state| == 8
    ensures buffer[..len] == absorbed[|absorbed| - len..] && state == Fold(IV(), absorbed[..|absorbed| - len])
    ensures bits == (8 * (|absorbed| - len)) % TWO_64
  {
    hide Fold, IV;
  }

  lemma WholeHolds(state: seq<Word>, bits: nat, buffer: bytes, absorbed: bytes)
    requires |buffer| == 64 && |absorbed| % 64 == 0 && state == Fold(IV(), absorbed) && bits == (8 * |absorbed|) % TWO_64
    ensures Holds(state, bits, buffer, 0, absorbed)
  {
    hide Fold, IV;
    assert absorbed[..|absorbed|] == absorbed;
  }

  lemma NextBlock(n: nat)
    requires n % 64 == 0
    ensures (n + 64) % 64 == 0 && ((8 * n) % TWO_64 + 512) % TWO_64 == (8 * (n + 64)) % TWO_64
  {
    ModAdd(8 * n, 512);
  }

  lemma HoldsFlushed(state: seq<Word>, bits: nat, buffer: bytes, absorbed: bytes, b: byte)
    requires Holds(state, bits, buffer, 63, absorbed)
    ensures |state| == 8
    ensures Holds(Compress(state, buffer[63 := b]), (bits + 512) % TWO_64, buffer[63 := b], 0, absorbed + [b])
  {
    hide Fold, IV, Compress, Holds;
    HoldsParts(state, bits, buffer, 63, absorbed);
    var n := |absorbed| - 63;
    var block := buffer[63 := b];
    FullBlock(buffer, absorbed, n, b);
    FoldAppend(IV(), absorbed[..n], block);
    NextBlock(n);
    WholeHolds(Compress(state, block), (bits + 512) % TWO_64, block, absorbed + [b]);
  }

  lemma FullBlock(buffer: bytes, absorbed: bytes, n: nat, b: byte)
    requires |buffer| == 64 && n + 63 == |absorbed| && buffer[..63] == absorbed[n..]
    ensures absorbed + [b] == absorbed[..n] + buffer[63 := b]
  {
    assert buffer[63 := b] == buffer[..63] + [b];
    assert absorbed == absorbed[..n] + absorbed[n..];
  }

  /** A full run of blocks: the state is the fold of all of them. */
  lemma HoldsWhole(state: seq<Word>, bits: nat, buffer: bytes, absorbed: bytes)
    requires Holds(state, bits, buffer, 0, absorbed)
    ensures state == Fold(IV(), absorbed)
  {
    hide Fold, IV;
    assert absorbed[..|absorbed|] == absorbed;
  }

  /** The fields fix the length, modulo 64 and in bits modulo 2^64. */
  lemma HoldsLength(state: seq<Word>, bits: nat, buffer: bytes, len: nat, absorbed: bytes)
    requires Holds(state, bits, buffer, len, absorbed)
    ensures len == |absorbed| % 64 && |state| == 8
    ensures (bits + 8 * len) % TWO_64 == (8 * |absorbed|) % TWO_64
  {
    hide Fold, IV;
    var n := |absorbed| - len;
    ModAdd(8 * n, 8 * len);
    assert 8 * n + 8 * len == 8 * |absorbed|;
    BlockRemainder(n, len);
  }

  lemma BlockRemainder(n: nat, len: nat)
    requires n % 64 == 0 && len < 64
    ensures (n + len) % 64 == len
  {}

  /** Zero bytes still to come before the index is 56, when the length so far is `length`. */
  function ToPad(length: nat): nat {
    (120 - length % 64) % 64
  }

  lemma PadProgress(length: nat)
    ensures ToPad(length + 1) == ZeroCount(length)
    ensures ToPad(length) == 0 <==> length % 64 == 56
    ensures ToPad(length) > 0 ==> ToPad(length + 1) == ToPad(length) - 1
  {
    var block, m := length / 64, length % 64;
    assert length == 64 * block + m;
    PadRemainder(block, m);
  }

  /** Only the remainder of the length matters. */
  lemma PadRemainder(block: nat, m: nat)
    requires m < 64
    ensures (64 * block + m + 1) % 64 == if m == 63 then 0 else m + 1
  {}

  class Sha256 {
    const state: array<Word>
    var bitCount: nat
    const buffer: array<byte>
    var bufferLen: nat
    /** Everything fed in since construction or the last finish. */
    ghost var absorbed: bytes

    ghost predicate Valid()
      reads this, state, buffer
    {
      && state.Length == 8 && buffer.Length == 64 && bufferLen < 64
      && Holds(state[..], bitCount, buffer[..], bufferLen, absorbed)
    }

    constructor ()
      ensures Valid() && absorbed == [] && fresh(state) && fresh(buffer)
    {
      state := new Word[8](i requires 0 <= i < 8 => IV()[i]);
      buffer := new byte[64](_ => 0);
      bitCount, bufferLen, absorbed := 0, 0, [];
      new;
      assert state[..] == IV();
      HoldsInitially(buffer[..]);
    }

    /** One turn of the loop in update. */
    method Push(b: byte)
      requires Valid()
      modifies this, state, buffer
      ensures Valid() && absorbed == old(absorbed) + [b]
    {
      hide Holds, Compress;
      ghost var before := buffer[..];
      if bufferLen < 63 {
        HoldsStored(state[..], bitCount, before, bufferLen, absorbed, b);
      } else {
        HoldsFlushed(state[..], bitCount, before, absorbed, b);
      }
      buffer[bufferLen] := b;
      assert buffer[..] == before[bufferLen := b];
      bufferLen := bufferLen + 1;
      absorbed := absorbed + [b];
      if bufferLen == 64 {
        CompressBlock(state, buffer[..]);
        bitCount := (bitCount + 512) % TWO_64;
        bufferLen := 0;
      }
    }

    method Update(data: bytes)
      requires Valid()
      modifies this, state, buffer
      ensures Valid() && absorbed == old(absorbed) + data
    {
      hide Holds;
      for i := 0 to |data|
        invariant Valid() && absorbed == old(absorbed) + data[..i]
      {
        Push(data[i]);
        assert data[..i + 1] == data[..i] + [data[i]];
      }
      assert data[..|data|] == data;
    }

    /** The padding part of finish: the index reaches 56 after the least number of zero bytes. */
    method AppendPadding()
      requires Valid()
      modifies this, state, buffer
      ensures Valid() && absorbed == Pad(old(absorbed)) && bufferLen == 0
    {
      hide Holds, BigEndian, Zeros, ZeroCount, ToPad;
      ghost var m := absorbed;
      HoldsLength(state[..], bitCount, buffer[..], bufferLen, absorbed);
      var bitLen := (bitCount + 8 * bufferLen) % TWO_64;
      Update([0x80]);
      ghost var zeros := 0;
      MoreZeros(0);
      PadProgress(|m|);
      HoldsLength(state[..], bitCount, buffer[..], bufferLen, absorbed);
      PadProgress(|absorbed|);
      while bufferLen != 56
        invariant Valid() && absorbed == m + [0x80] + Zeros(zeros)
        invariant bufferLen == |absorbed| % 64
        invariant bufferLen == 56 <==> ToPad(|absorbed|) == 0
        invariant zeros + ToPad(|absorbed|) == ZeroCount(|m|)
        decreases ToPad(|absorbed|)
      {
        PadProgress(|absorbed|);
        Update([0]);
        MoreZeros(zeros);
        zeros := zeros + 1;
        HoldsLength(state[..], bitCount, buffer[..], bufferLen, absorbed);
        PadProgress(|absorbed|);
      }
      var lenbuf := LengthField(bitLen);
      Update(lenbuf);
      PadLength(m);
      HoldsLength(state[..], bitCount, buffer[..], bufferLen, absorbed);
    }

    /** finish: the digest of everything absorbed, after which the object is as new. */
    method Finish() returns (out: bytes)
      requires Valid()
      modifies this, state, buffer
      ensures out == Hash(old(absorbed))
      ensures Valid() && absorbed == []
    {
      hide Holds, Fold, Pad, IV, WordBigEndian;
      AppendPadding();
      HoldsWhole(state[..], bitCount, buffer[..], absorbed);
      ghost var final := state[..];
      out := [];
      for i := 0 to 8
        invariant state[..] == final && out == Serialized(state[..i])
      {
        assert state[..i + 1] == state[..i] + [state[i]];
        SerializedAppend(state[..i], state[i]);
        out := out + WordBigEndian(state[i]);
      }
      assert state[..8] == final;
      Reset();
    }

    method Reset()
      requires state.Length == 8 && buffer.Length == 64
      modifies this, state
      ensures Valid() && absorbed == []
    {
      for i := 0 to 8
        invariant forall j :: 0 <= j < i ==> state[j] == IV()[j]
      {
        state[i] := IV()[i];
      }
      bitCount, bufferLen, absorbed := 0, 0, [];
      assert state[..] == IV();
      HoldsInitially(buffer[..]);
    }

    /** The copy digest works on. */
    constructor Copy(h: Sha256)
      requires h.Valid()
      ensures Valid() && absorbed == h.absorbed && fresh(state) && fresh(buffer)
    {
      hide Holds;
      state := new Word[8](i requires 0 <= i < 8 reads h.state => h.state[i]);
      buffer := new byte[64](i requires 0 <= i < 64 reads h.buffer => h.buffer[i]);
      bitCount, bufferLen, absorbed := h.bitCount, h.bufferLen, h.absorbed;
      new;
      assert state[..] == h.state[..] && buffer[..] == h.buffer[..];
    }

    /** digest: finishes a copy and leaves this object as it was. */
    method Digest() returns (out: bytes)
      requires Valid()
      ensures out == Hash(absorbed)
    {
      hide Holds, Hash;
      var copy := new Sha256.Copy(this);
      out := copy.Finish();
    }
  }

  method LengthField(bitLen: nat) returns (lenbuf: bytes)
    ensures lenbuf == BigEndian(bitLen, 8)
  {
    hide ToByte, ShrBytes, BigEndian;
    lenbuf := [];
    for i := 0 to 8
      invariant lenbuf == BigEndian(bitLen, 8)[..i]
    {
      BigEndianAt(bitLen, 8, i);
      lenbuf := lenbuf + [ToByte(ShrBytes(bitLen, 7 - i) % 256)];
    }
  }

  function Joined(pieces: seq<bytes>): bytes {
    if pieces == [] then [] else pieces[0] + Joined(pieces[1..])
  }

  /** The digest does not depend on how the message was split into updates. */
  method HashPieces(pieces: seq<bytes>) returns (out: bytes)
    ensures out == Hash(Joined(pieces))
  {
    hide Hash, Holds;
    var h := new Sha256();
    for i := 0 to |pieces|
      invariant fresh(h) && fresh(h.state) && fresh(h.buffer) && h.Valid()
      invariant h.absorbed + Joined(pieces[i..]) == Joined(pieces)
    {
      h.Update(pieces[i]);
      assert pieces[i..][0] == pieces[i] && pieces[i..][1..] == pieces[i + 1..];
    }
    assert pieces[|pieces|..] == [];
    assert h.absorbed == Joined(pieces);
    out := h.Finish();
  }
}
