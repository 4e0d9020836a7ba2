/** src/digest.cpp, first half: CRC-32 by table, and crc32_combine by GF(2) matrix powers.
    The reference is the bit-serial shift register of section 3.2.9 of IEEE 802.3
    (section 8 of RFC 1952), reflected, with register and result complemented. */
module Crc32 {
  import opened Bytes
  import opened Words

  // ----- Words as vectors over GF(2) -----

  const POLY: bv32 := 0xEDB8_8320
  const ZERO := Word(0)
  const ONE := Word(1)
  const ONES := Word(0xFFFF_FFFF)

  function Shl(v: Word): Word {
    Word(v.bits << 1)
  }

  function LowBit(v: Word): Word {
    if v.bits & 1 == 1 then ONE else ZERO
  }

  function FromByte(b: byte): Word {
    Word(b as bv32)
  }

  lemma SameBits(a: Word, b: Word)
    requires a.bits == b.bits
    ensures a == b
  {}

  lemma XorCommutes(a: Word, b: Word)
    ensures Xor(a, b) == Xor(b, a)
  {}

  lemma XorAssociates(a: Word, b: Word, c: Word)
    ensures Xor(Xor(a, b), c) == Xor(a, Xor(b, c))
  {}

  lemma XorZero(a: Word)
    ensures Xor(a, ZERO) == a && Xor(a, a) == ZERO
  {}

  lemma XorGroup(a: Word, b: Word, c: Word)
    ensures Xor(a, b) == Xor(b, a)
    ensures Xor(Xor(a, b), c) == Xor(a, Xor(b, c))
    ensures Xor(a, ZERO) == a == Xor(ZERO, a)
    ensures Xor(a, a) == ZERO
  {
    hide Xor;
    XorCommutes(a, b);
    XorCommutes(a, ZERO);
    XorAssociates(a, b, c);
    XorZero(a);
  }

  lemma XorCancel(a: Word, b: Word, c: Word)
    ensures Xor(Xor(a, c), c) == a
    ensures Xor(a, c) == Xor(b, c) ==> a == b
    ensures Xor(c, a) == Xor(c, b) ==> a == b
  {
    hide Xor;
    XorGroup(a, c, c);
    XorGroup(b, c, c);
    XorZero(c);
  }

  lemma XorSwap(a: Word, b: Word, c: Word)
    ensures Xor(Xor(a, b), c) == Xor(Xor(a, c), b)
  {}

  lemma ShlXor(a: Word, b: Word)
    ensures Shl(Xor(a, b)) == Xor(Shl(a), Shl(b))
  {}

  lemma SplitLowBit(v: Word)
    ensures v == Xor(LowBit(v), Shl(Shr(v)))
  {}

  // ----- Bit-serial reference -----

  /** One zero bit shifted through the register. */
  function Step(c: Word): Word {
    if c.bits & 1 == 1 then Word(POLY ^ (c.bits >> 1)) else Word(c.bits >> 1)
  }

  /** k zero bits shifted through the register. */
  function Steps(c: Word, k: nat): Word
    decreases k
  {
    if k == 0 then c else Steps(Step(c), k - 1)
  }

  /** The register after the bytes of `data`, least significant bit first. */
  function Raw(c: Word, data: bytes): Word
    decreases |data|
  {
    if data == [] then c else Raw(Steps(Xor(c, FromByte(data[0])), 8), data[1..])
  }

  function Crc(data: bytes): Word {
    Xor(Raw(ONES, data), ONES)
  }

  // ----- The register is linear and reversible -----

  lemma StepXor(a: Word, b: Word)
    ensures Step(Xor(a, b)) == Xor(Step(a), Step(b))
  {
    StepSplit(a);
    StepSplit(b);
    StepSplit(Xor(a, b));
    XorShr(a, b);
    FeedbackXor(a, b);
    hide Step, Xor, Shr, Feedback;
    XorExchange(Shr(a), Shr(b), Feedback(a), Feedback(b));
  }

  function Feedback(c: Word): Word {
    if c.bits & 1 == 1 then Word(POLY) else ZERO
  }

  lemma StepSplit(c: Word)
    ensures Step(c) == Xor(Shr(c), Feedback(c))
  {
    XorGroup(Shr(c), Word(POLY), ZERO);
  }

  lemma FeedbackXor(a: Word, b: Word)
    ensures Feedback(Xor(a, b)) == Xor(Feedback(a), Feedback(b))
  {
    var x, y := a.bits, b.bits;
    assert (x ^ y) & 1 == (x & 1) ^ (y & 1);
    assert x & 1 == 0 || x & 1 == 1;
    assert y & 1 == 0 || y & 1 == 1;
  }

  lemma XorExchange(a: Word, b: Word, c: Word, d: Word)
    ensures Xor(Xor(a, b), Xor(c, d)) == Xor(Xor(a, c), Xor(b, d))
  {
    XorGroup(a, b, Xor(c, d));
    XorGroup(a, c, Xor(b, d));
    XorGroup(b, c, d);
    XorGroup(c, b, d);
    hide Xor;
  }

  lemma {:induction false} StepsXor(a: Word, b: Word, k: nat)
    ensures Steps(Xor(a, b), k) == Xor(Steps(a, k), Steps(b, k))
    decreases k
  {
    hide Step, Xor;
    if k > 0 {
      StepXor(a, b);
      StepsXor(Step(a), Step(b), k - 1);
    }
  }

  lemma {:induction false} StepsAdd(c: Word, j: nat, k: nat)
    ensures Steps(Steps(c, j), k) == Steps(c, j + k)
    decreases j
  {
    hide Step;
    if j > 0 {
      StepsAdd(Step(c), j - 1, k);
    }
  }

  lemma {:induction false} StepsZero(k: nat)
    ensures Steps(ZERO, k) == ZERO
  {
    if k > 0 {
      StepsZero(k - 1);
    }
  }

  /** The top bit tells which branch Step took, so it can be undone. */
  function Unstep(v: Word): Word {
    if v.bits & 0x8000_0000 != 0 then Word(((v.bits ^ POLY) << 1) | 1) else Word(v.bits << 1)
  }

  lemma UnstepStep(c: Word)
    ensures Unstep(Step(c)) == c
  {}

  lemma {:induction false} StepsInjective(a: Word, b: Word, k: nat)
    requires Steps(a, k) == Steps(b, k)
    ensures a == b
    decreases k
  {
    hide Step, Unstep;
    if k > 0 {
      StepsInjective(Step(a), Step(b), k - 1);
      UnstepStep(a);
      UnstepStep(b);
    }
  }

  // ----- Widths -----

  function Mask(n: nat): bv32 {
    if n == 0 then 0 else (Mask(n - 1) << 1) | 1
  }

  /** v has no bit at position n or above. */
  predicate Fits(v: Word, n: nat) {
    v.bits & Mask(n) == v.bits
  }

  lemma FitsBasics(v: Word)
    ensures Fits(v, 0) ==> v == ZERO
    ensures Fits(v, 32)
  {
    Masks();
  }

  lemma FitsOne()
    ensures Fits(ONE, 1)
  {}

  lemma FitsHigh(x: bv32)
    ensures Fits(Word(x >> 8), 24)
  {
    Masks();
    MaskedBits(x);
  }

  lemma StepShl(v: Word)
    requires Fits(v, 31)
    ensures Step(Shl(v)) == v
  {
    hide Mask, Step, Shl;
    TopClear(v);
    StepShlBits(v.bits);
  }

  lemma StepShlBits(x: bv32)
    requires x & 0x7FFF_FFFF == x
    ensures Step(Shl(Word(x))) == Word(x)
  {}

  lemma TopClear(v: Word)
    requires Fits(v, 31)
    ensures v.bits & 0x7FFF_FFFF == v.bits
  {
    Masks();
  }

  lemma Masks()
    ensures Mask(24) == 0xFF_FFFF && Mask(31) == 0x7FFF_FFFF && Mask(32) == 0xFFFF_FFFF
  {
    assert Mask(8) == 0xFF;
    assert Mask(16) == 0xFFFF;
    assert Mask(24) == 0xFF_FFFF;
    assert Mask(31) == 0x7FFF_FFFF;
  }

  lemma MaskedBits(x: bv32)
    ensures (x >> 8) & 0xFF_FFFF == x >> 8
  {}

  lemma FitsByte(b: byte)
    ensures Fits(FromByte(b), 8)
  {
    assert Mask(8) == 0xFF;
  }

  lemma FitsShift(v: Word, n: nat)
    ensures Fits(v, n) ==> Fits(Shl(v), n + 1)
    ensures Fits(v, n + 1) ==> Fits(Shr(v), n)
  {
    ShiftedMask(v.bits, Mask(n));
  }

  lemma ShiftedMask(x: bv32, m: bv32)
    ensures x & m == x ==> (x << 1) & ((m << 1) | 1) == x << 1
    ensures x & ((m << 1) | 1) == x ==> (x >> 1) & m == x >> 1
  {}

  lemma FitsXor(a: Word, b: Word, n: nat)
    requires Fits(a, n) && Fits(b, n)
    ensures Fits(Xor(a, b), n)
  {
    hide Mask;
  }

  lemma {:induction false} MaskGrows(n: nat)
    ensures Mask(n) & Mask(n + 1) == Mask(n)
  {
    if n > 0 {
      MaskGrows(n - 1);
      var a, b := Mask(n - 1), Mask(n);
      assert ((a << 1) | 1) & ((b << 1) | 1) == ((a & b) << 1) | 1;
    }
  }

  lemma {:induction false} FitsWider(v: Word, n: nat, m: nat)
    requires Fits(v, n) && n <= m
    ensures Fits(v, m)
    decreases m - n
  {
    hide Mask;
    if n < m {
      MaskGrows(n);
      FitsWider(v, n + 1, m);
    }
  }

  // ----- Repeated left shifts -----

  function Up(v: Word, n: nat): Word {
    if n == 0 then v else Shl(Up(v, n - 1))
  }

  lemma {:induction false} UpAdd(v: Word, m: nat, n: nat)
    ensures Up(Up(v, m), n) == Up(v, m + n)
  {
    hide Shl;
    if n > 0 {
      UpAdd(v, m, n - 1);
    }
  }

  lemma UpByte(v: Word)
    ensures Up(v, 8).bits == v.bits << 8
  {
    hide Up, Shl;
    var w := Up(v, 4);
    UpFour(v);
    UpFour(w);
    UpAdd(v, 4, 4);
    ShlFour(v, w);
    ShlFour(w, Up(v, 8));
    ShlEight(v, w, Up(v, 8));
  }

  lemma ShlEight(v: Word, w: Word, x: Word)
    requires w.bits == v.bits << 4 && x.bits == w.bits << 4
    ensures x.bits == v.bits << 8
  {}

  lemma UpFour(v: Word)
    ensures Up(v, 4) == Shl(Shl(Shl(Shl(v))))
  {
    hide Shl;
    assert Up(v, 1) == Shl(v);
    assert Up(v, 2) == Shl(Shl(v));
    assert Up(v, 3) == Shl(Shl(Shl(v)));
  }

  lemma ShlFour(v: Word, w: Word)
    requires w == Shl(Shl(Shl(Shl(v))))
    ensures w.bits == v.bits << 4
  {}

  lemma {:induction false} UpXor(a: Word, b: Word, n: nat)
    ensures Up(Xor(a, b), n) == Xor(Up(a, n), Up(b, n))
  {
    hide Shl, Xor;
    if n > 0 {
      UpXor(a, b, n - 1);
      ShlXor(Up(a, n - 1), Up(b, n - 1));
    }
  }

  lemma {:induction false} UpInner(v: Word, n: nat)
    ensures Up(Shl(v), n) == Up(v, n + 1)
  {
    hide Shl;
    if n > 0 {
      UpInner(v, n - 1);
    }
  }

  lemma {:induction false} UpZero(n: nat)
    ensures Up(ZERO, n) == ZERO
  {
    if n > 0 {
      UpZero(n - 1);
    }
  }

  lemma {:induction false} FitsUp(v: Word, n: nat, w: nat)
    requires Fits(v, w)
    ensures Fits(Up(v, n), w + n)
  {
    hide Shl, Mask, Fits;
    if n > 0 {
      FitsUp(v, n - 1, w);
      FitsShift(Up(v, n - 1), w + n - 1);
    }
  }

  /** Stepping n times undoes n left shifts that lose no bit. */
  lemma {:induction false} StepsUndoUp(v: Word, n: nat)
    requires n <= 32 && Fits(v, 32 - n)
    ensures Steps(Up(v, n), n) == v
  {
    hide Shl, Step, Mask, Fits;
    if n > 0 {
      FitsUp(v, n - 1, 32 - n);
      StepShl(Up(v, n - 1));
      FitsWider(v, 32 - n, 32 - (n - 1));
      StepsUndoUp(v, n - 1);
    }
  }

  // ----- Table-driven form -----

  /** A register is its low byte and the rest shifted back up. */
  lemma SplitByte(x: Word, lo: Word, hi: Word, up: Word)
    requires lo.bits == x.bits & 0xFF && hi.bits == x.bits >> 8 && up.bits == hi.bits << 8
    ensures Xor(lo, up).bits == x.bits
  {}

  lemma StepsSplit(lo: Word, hi: Word)
    requires Fits(hi, 24)
    ensures Steps(Xor(lo, Up(hi, 8)), 8) == Xor(Steps(lo, 8), hi)
  {
    hide Steps, Xor, Up, Fits;
    StepsXor(lo, Up(hi, 8), 8);
    StepsUndoUp(hi, 8);
  }

  /** Eight steps act on the low byte through the table and shift the rest down. */
  lemma EightSteps(x: Word)
    ensures Steps(x, 8) == Xor(Steps(Word(x.bits & 0xFF), 8), Word(x.bits >> 8))
  {
    hide Steps, Xor, Up, Fits;
    var lo, hi := Word(x.bits & 0xFF), Word(x.bits >> 8);
    UpByte(hi);
    SplitByte(x, lo, hi, Up(hi, 8));
    SameBits(Xor(lo, Up(hi, 8)), x);
    FitsHigh(x.bits);
    StepsSplit(lo, hi);
  }

  ghost predicate IsTable(t: seq<Word>) {
    |t| == 256 && forall b: byte :: t[b as nat] == Steps(FromByte(b), 8)
  }

  method BuildTable() returns (t: array<Word>)
    ensures fresh(t) && IsTable(t[..])
  {
    hide Steps, FromByte, ToByte;
    t := new Word[256](_ => ZERO);
    for i := 0 to 256
      invariant forall j :: 0 <= j < i ==> t[j] == Steps(FromByte(ToByte(j)), 8)
    {
      t[i] := TableEntry(ToByte(i));
    }
    forall b: byte
      ensures t[b as nat] == Steps(FromByte(b), 8)
    {
      ByteOfNat(b);
    }
  }

  method TableEntry(i: byte) returns (c: Word)
    ensures c == Steps(FromByte(i), 8)
  {
    hide Step, FromByte;
    c := FromByte(i);
    for k := 0 to 8
      invariant Steps(c, 8 - k) == Steps(FromByte(i), 8)
    {
      c := Step(c);
    }
  }

  /** (c ^ b) & 0xFF */
  function Index(c: Word, b: byte): byte {
    ((c.bits ^ (b as bv32)) & 0xFF) as byte
  }

  function ShrByte(c: Word): Word {
    Word(c.bits >> 8)
  }

  lemma TableStep(c: Word, b: byte)
    ensures Xor(Steps(FromByte(Index(c, b)), 8), ShrByte(c)) == Steps(Xor(c, FromByte(b)), 8)
  {
    hide Steps;
    EightSteps(Xor(c, FromByte(b)));
    TableIndex(c.bits, b);
  }

  lemma TableIndex(c: bv32, b: byte)
    ensures FromByte(Index(Word(c), b)) == Word((c ^ (b as bv32)) & 0xFF)
    ensures (c ^ (b as bv32)) >> 8 == c >> 8
  {}

  /** crc32: the table look-up computes the bit-serial checksum. */
  method Checksum(data: bytes) returns (crc: Word)
    ensures crc == Crc(data)
  {
    hide Steps, Xor, FromByte, Index, ShrByte;
    var table := BuildTable();
    crc := ONES;
    for n := 0 to |data|
      invariant IsTable(table[..])
      invariant Raw(crc, data[n..]) == Raw(ONES, data)
    {
      assert data[n..][1..] == data[n + 1..];
      TableStep(crc, data[n]);
      var i := Index(crc, data[n]) as nat;
      assert table[..][i] == Steps(FromByte(Index(crc, data[n])), 8);
      crc := Xor(table[i], ShrByte(crc));
    }
    crc := Xor(crc, ONES);
  }

  // ----- Matrices over GF(2) -----

  /** Matrix-vector product, column 0 for the low-order bit. */
  function Times(mat: seq<Word>, v: Word): Word {
    if mat == [] then ZERO
    else Xor(if LowBit(v) == ONE then mat[0] else ZERO, Times(mat[1..], Shr(v)))
  }

  /** The matrix whose product with a register applies k zero bits. */
  ghost predicate Applies(mat: seq<Word>, k: nat) {
    |mat| == 32 && forall n :: 0 <= n < 32 ==> mat[n] == Steps(Up(ONE, n), k)
  }

  lemma {:induction false} TimesFrom(mat: seq<Word>, k: nat, off: nat, v: Word)
    requires Applies(mat, k) && off <= 32 && Fits(v, 32 - off)
    ensures Times(mat[off..], v) == Steps(Up(v, off), k)
    decreases 32 - off
  {
    hide Steps, Up, Fits, Xor, Shl, Shr;
    UpZero(off);
    StepsZero(k);
    if off == 32 {
      FitsBasics(v);
    } else {
      FitsShift(v, 31 - off);
      TimesFrom(mat, k, off + 1, Shr(v));
      assert mat[off..][1..] == mat[off + 1..];
      SplitLowBit(v);
      UpXor(LowBit(v), Shl(Shr(v)), off);
      UpInner(Shr(v), off);
      StepsXor(Up(LowBit(v), off), Up(Shr(v), off + 1), k);
    }
  }

  /** A matrix is determined by its columns: the product is the operator. */
  lemma TimesApplies(mat: seq<Word>, k: nat, v: Word)
    requires Applies(mat, k)
    ensures Times(mat, v) == Steps(v, k)
  {
    hide Steps, Fits, Times;
    FitsBasics(v);
    TimesFrom(mat, k, 0, v);
    assert mat[0..] == mat;
  }

  lemma {:induction false} TimesOfZero(mat: seq<Word>)
    ensures Times(mat, ZERO) == ZERO
  {
    if mat != [] {
      TimesOfZero(mat[1..]);
    }
  }

  /** gf2_matrix_times: the loop stops at the highest set bit, and its column index stays below 32. */
  method MatrixTimes(mat: array<Word>, vec: Word) returns (sum: Word)
    requires mat.Length == 32
    ensures sum == Times(mat[..], vec)
  {
    hide Fits, Xor, Shr, LowBit;
    sum := ZERO;
    var v := vec;
    var n := 0;
    FitsBasics(vec);
    XorGroup(Times(mat[..], vec), ZERO, ZERO);
    assert mat[0..] == mat[..];
    while v != ZERO
      invariant 0 <= n <= 32 && Fits(v, 32 - n)
      invariant Xor(sum, Times(mat[n..], v)) == Times(mat[..], vec)
      decreases 32 - n
    {
      FitsBasics(v);
      FitsShift(v, 31 - n);
      assert mat[n..][1..] == mat[n + 1..];
      ghost var rest := Times(mat[n + 1..], Shr(v));
      XorGroup(sum, mat[n], rest);
      XorGroup(rest, ZERO, ZERO);
      if LowBit(v) == ONE {
        sum := Xor(sum, mat[n]);
      }
      v := Shr(v);
      n := n + 1;
    }
    TimesOfZero(mat[n..]);
    XorGroup(sum, ZERO, ZERO);
  }

  /** gf2_matrix_square: squaring doubles the number of zero bits a matrix applies. */
  method MatrixSquare(square: array<Word>, mat: array<Word>, ghost k: nat)
    requires square.Length == mat.Length == 32 && square != mat
    requires Applies(mat[..], k)
    modifies square
    ensures Applies(square[..], 2 * k)
  {
    hide Steps, Up, Times;
    for n := 0 to 32
      invariant mat[..] == old(mat[..])
      invariant forall i :: 0 <= i < n ==> square[i] == Steps(Up(ONE, i), 2 * k)
    {
      square[n] := MatrixTimes(mat, mat[n]);
      TimesApplies(mat[..], k, mat[n]);
      StepsAdd(Up(ONE, n), k, k);
    }
  }

  // ----- crc32_combine -----

  /** The register after `data`, started from any value, differs by that value run through its zero bits. */
  lemma {:induction false} RawXor(c: Word, d: Word, data: bytes)
    ensures Raw(Xor(c, d), data) == Xor(Raw(c, data), Steps(d, 8 * |data|))
    decreases |data|
  {
    hide Steps, Xor, FromByte;
    if data != [] {
      var b := FromByte(data[0]);
      XorSwap(c, d, b);
      StepsXor(Xor(c, b), d, 8);
      RawXor(Steps(Xor(c, b), 8), Steps(d, 8), data[1..]);
      StepsAdd(d, 8, 8 * |data[1..]|);
    } else {
      assert Steps(d, 0) == d by { StepsNone(d); }
    }
  }

  lemma StepsNone(d: Word)
    ensures Steps(d, 0) == d
  {}

  lemma {:induction false} RawConcat(c: Word, a: bytes, b: bytes)
    ensures Raw(c, a + b) == Raw(Raw(c, a), b)
    decreases |a|
  {
    hide Steps, Xor, FromByte;
    if a == [] {
      assert a + b == b;
    } else {
      RawConcat(Steps(Xor(c, FromByte(a[0])), 8), a[1..], b);
      assert (a + b)[1..] == a[1..] + b;
    }
  }

  /** What combining must compute, from the two checksums and the second length alone. */
  lemma CrcConcat(a: bytes, b: bytes)
    ensures Crc(a + b) == Xor(Steps(Crc(a), 8 * |b|), Crc(b))
  {
    hide Raw, Steps, Xor;
    RawConcat(ONES, a, b);
    var d := Crc(a);
    var s := Steps(d, 8 * |b|);
    XorGroup(ONES, d, ZERO);
    XorCancel(Raw(ONES, a), ZERO, ONES);
    RawXor(ONES, d, b);
    XorGroup(Raw(ONES, b), s, ONES);
    XorGroup(s, Raw(ONES, b), ONES);
  }

  lemma Halve(len: nat, unit: nat)
    ensures len * unit == (len / 2) * (2 * unit) + (len % 2) * unit
  {
    assert len == 2 * (len / 2) + len % 2;
  }

  /** One bit of the length, taken in either half of the loop body. */
  lemma CombineRound(crc: Word, done: nat, len: nat, unit: nat, total: nat, mat: seq<Word>, start: Word)
    requires done + len * unit == total && crc == Steps(start, 8 * done) && Applies(mat, 8 * unit)
    ensures done + (len % 2) * unit + (len / 2) * (2 * unit) == total
    ensures (if len % 2 == 1 then Times(mat, crc) else crc) == Steps(start, 8 * (done + (len % 2) * unit))
  {
    hide Steps, Times, Applies;
    Halve(len, unit);
    if len % 2 == 1 {
      TimesApplies(mat, 8 * unit, crc);
      StepsAdd(start, 8 * done, 8 * unit);
    }
  }

  lemma FirstColumns(n: nat)
    requires n < 32
    ensures n > 0 ==> Steps(Up(ONE, n), 1) == Up(ONE, n - 1)
    ensures Word(POLY) == Steps(Up(ONE, 0), 1)
  {
    hide Mask, Fits, Shl;
    if n > 0 {
      FitsOne();
      FitsUp(ONE, n - 1, 1);
      FitsWider(Up(ONE, n - 1), n, 31);
      StepShl(Up(ONE, n - 1));
      assert Steps(Up(ONE, n), 1) == Step(Shl(Up(ONE, n - 1)));
    }
  }

  /** The matrix of one zero bit, as crc32_combine fills it in. */
  method FirstMatrix(odd: array<Word>)
    requires odd.Length == 32
    modifies odd
    ensures Applies(odd[..], 1)
  {
    odd[0] := Word(POLY);
    var row := ONE;
    FirstColumns(0);
    assert Up(ONE, 0) == row;
    hide Steps, Shl;
    for n := 1 to 32
      invariant row == Up(ONE, n - 1)
      invariant forall i :: 0 <= i < n ==> odd[i] == Steps(Up(ONE, i), 1)
    {
      odd[n] := row;
      FirstColumns(n);
      row := Shl(row);
    }
  }

  /** crc32_combine: exactly 8 * len2 zero bits are applied to crc1, by repeated squaring
      that alternates two matrices. */
  method Crc32Combine(crc1: Word, crc2: Word, len2: nat) returns (crc: Word)
    ensures len2 == 0 ==> crc == crc1
    ensures len2 > 0 ==> crc == Xor(Steps(crc1, 8 * len2), crc2)
  {
    if len2 == 0 {
      return crc1;
    }
    hide Steps, Times, Applies, Xor;
    var even, odd := new Word[32](_ => ZERO), new Word[32](_ => ZERO);
    FirstMatrix(odd);
    MatrixSquare(even, odd, 1);
    MatrixSquare(odd, even, 2);
    var len := len2;
    crc := crc1;
    ghost var unit, done := 1, 0;
    StepsNone(crc1);
    while true
      invariant fresh(even) && fresh(odd) && even != odd && even.Length == odd.Length == 32
      invariant len > 0 && unit > 0 && done + len * unit == len2
      invariant Applies(odd[..], 4 * unit) && crc == Steps(crc1, 8 * done)
      decreases len
    {
      MatrixSquare(even, odd, 4 * unit);
      CombineRound(crc, done, len, unit, len2, even[..], crc1);
      if len % 2 == 1 {
        crc := MatrixTimes(even, crc);
      }
      done, unit, len := done + (len % 2) * unit, 2 * unit, len / 2;
      if len == 0 {
        break;
      }
      MatrixSquare(odd, even, 4 * unit);
      CombineRound(crc, done, len, unit, len2, odd[..], crc1);
      if len % 2 == 1 {
        crc := MatrixTimes(odd, crc);
      }
      done, unit, len := done + (len % 2) * unit, 2 * unit, len / 2;
      if len == 0 {
        break;
      }
    }
    crc := Xor(crc, crc2);
  }

  /** The law crc32_combine exists for. */
  method CombineIsConcatenation(a: bytes, b: bytes, crc1: Word, crc2: Word) returns (crc: Word)
    requires crc1 == Crc(a) && crc2 == Crc(b)
    ensures crc == Crc(a + b)
  {
    hide Crc, Steps, Xor;
    crc := Crc32Combine(crc1, crc2, |b|);
    CrcConcat(a, b);
    if b == [] {
      assert a + b == a;
    }
  }

  // ----- The checksum as four little-endian bytes -----

  function WordBytes(w: Word): (s: bytes)
    ensures |s| == 4
  {
    [(w.bits & 0xFF) as byte, ((w.bits >> 8) & 0xFF) as byte,
     ((w.bits >> 16) & 0xFF) as byte, ((w.bits >> 24) & 0xFF) as byte]
  }

  function WordOf(s: bytes): Word
    requires |s| == 4
  {
    Word((s[0] as bv32) | ((s[1] as bv32) << 8) | ((s[2] as bv32) << 16) | ((s[3] as bv32) << 24))
  }

  lemma WordBytesBits(x: bv32)
    ensures (((x & 0xFF) as byte) as bv32) | ((((x >> 8) & 0xFF) as byte as bv32) << 8)
          | ((((x >> 16) & 0xFF) as byte as bv32) << 16) | ((((x >> 24) & 0xFF) as byte as bv32) << 24) == x
  {}

  lemma WordOfBits(a: byte, b: byte, c: byte, d: byte, x: bv32)
    requires x == (a as bv32) | ((b as bv32) << 8) | ((c as bv32) << 16) | ((d as bv32) << 24)
    ensures (x & 0xFF) as byte == a && ((x >> 8) & 0xFF) as byte == b
    ensures ((x >> 16) & 0xFF) as byte == c && ((x >> 24) & 0xFF) as byte == d
  {}

  lemma WordOfWordBytes(w: Word)
    ensures WordOf(WordBytes(w)).bits == w.bits
  {
    WordBytesBits(w.bits);
  }

  lemma WordBytesOfWord(s: bytes)
    requires |s| == 4
    ensures WordBytes(WordOf(s)) == s
  {
    hide WordBytes;
    BytesOfWordBits(s[0], s[1], s[2], s[3], WordOf(s));
    assert s == [s[0], s[1], s[2], s[3]];
  }

  lemma BytesOfWordBits(a: byte, b: byte, c: byte, d: byte, w: Word)
    requires w.bits == (a as bv32) | ((b as bv32) << 8) | ((c as bv32) << 16) | ((d as bv32) << 24)
    ensures WordBytes(w) == [a, b, c, d]
  {
    WordOfBits(a, b, c, d, w.bits);
  }

  lemma WordRoundTrip(w: Word)
    ensures WordOf(WordBytes(w)) == w
  {
    WordOfWordBytes(w);
    hide WordOf, WordBytes;
    SameBits(WordOf(WordBytes(w)), w);
  }

  // ----- Burst errors -----

  /** Up to four bytes as the register sees them. */
  function Pack(w: bytes): Word {
    if w == [] then ZERO else Xor(FromByte(w[0]), Up(Pack(w[1..]), 8))
  }

  lemma PackLowByte(b: byte, c: byte, v: Word, w: Word)
    requires Xor(FromByte(b), Up(v, 8)) == Xor(FromByte(c), Up(w, 8))
    ensures b == c
  {
    UpByte(v);
    UpByte(w);
    hide Up;
    var x, y := v.bits, w.bits;
    assert ((b as bv32) ^ (x << 8)) & 0xFF == b as bv32;
    assert ((c as bv32) ^ (y << 8)) & 0xFF == c as bv32;
  }

  lemma {:induction false} PackFits(w: bytes)
    requires |w| <= 4
    ensures Fits(Pack(w), 8 * |w|)
  {
    hide Fits, Xor, Up, FromByte;
    if w == [] {
      assert Fits(ZERO, 0) by { FitsNone(); }
    } else {
      PackFits(w[1..]);
      FitsUp(Pack(w[1..]), 8, 8 * |w[1..]|);
      FitsByte(w[0]);
      FitsWider(FromByte(w[0]), 8, 8 * |w|);
      FitsXor(FromByte(w[0]), Up(Pack(w[1..]), 8), 8 * |w|);
    }
  }

  lemma FitsNone()
    ensures Fits(ZERO, 0)
  {}

  lemma {:induction false} PackInjective(v: bytes, w: bytes)
    requires |v| == |w| <= 4 && Pack(v) == Pack(w)
    ensures v == w
  {
    hide Fits, Xor, Up, FromByte, Steps;
    if v != [] {
      var p, q := Pack(v[1..]), Pack(w[1..]);
      PackLowByte(v[0], w[0], p, q);
      XorCancel(Up(p, 8), Up(q, 8), FromByte(v[0]));
      PackFits(v[1..]);
      PackFits(w[1..]);
      FitsWider(p, 8 * |v[1..]|, 24);
      FitsWider(q, 8 * |w[1..]|, 24);
      StepsUndoUp(p, 8);
      StepsUndoUp(q, 8);
      PackInjective(v[1..], w[1..]);
    }
  }

  /** Four bytes or fewer enter the register at once. */
  lemma {:induction false} RawShort(c: Word, w: bytes)
    requires |w| <= 4
    ensures Raw(c, w) == Steps(Xor(c, Pack(w)), 8 * |w|)
    decreases |w|
  {
    hide Fits, Xor, Up, FromByte, Steps;
    if w == [] {
      XorGroup(c, ZERO, ZERO);
      StepsNone(c);
    } else {
      var b, rest := FromByte(w[0]), Pack(w[1..]);
      RawShort(Steps(Xor(c, b), 8), w[1..]);
      PackFits(w[1..]);
      FitsWider(rest, 8 * |w[1..]|, 24);
      StepsUndoUp(rest, 8);
      StepsXor(Xor(c, b), Up(rest, 8), 8);
      XorGroup(c, b, Up(rest, 8));
      StepsAdd(Xor(c, Pack(w)), 8, 8 * |w[1..]|);
    }
  }

  lemma {:induction false} RawInjective(c: Word, d: Word, data: bytes)
    requires Raw(c, data) == Raw(d, data)
    ensures c == d
    decreases |data|
  {
    hide Xor, FromByte, Steps;
    if data != [] {
      var b := FromByte(data[0]);
      RawInjective(Steps(Xor(c, b), 8), Steps(Xor(d, b), 8), data[1..]);
      StepsInjective(Xor(c, b), Xor(d, b), 8);
      XorCancel(c, d, b);
    }
  }

  /** Replacing at most four consecutive bytes always changes the checksum. */
  lemma BurstChangesCrc(pre: bytes, v: bytes, w: bytes, post: bytes)
    requires |v| == |w| <= 4 && v != w
    ensures Crc(pre + v + post) != Crc(pre + w + post)
  {
    hide Raw, Steps, Xor, Pack;
    if Crc(pre + v + post) == Crc(pre + w + post) {
      var c := Raw(ONES, pre);
      RawConcat(ONES, pre, v);
      RawConcat(ONES, pre, w);
      RawConcat(ONES, pre + v, post);
      RawConcat(ONES, pre + w, post);
      XorCancel(Raw(ONES, pre + v + post), Raw(ONES, pre + w + post), ONES);
      RawInjective(Raw(c, v), Raw(c, w), post);
      RawShort(c, v);
      RawShort(c, w);
      StepsInjective(Xor(c, Pack(v)), Xor(c, Pack(w)), 8 * |v|);
      XorCancel(Pack(v), Pack(w), c);
      PackInjective(v, w);
    }
  }
}
