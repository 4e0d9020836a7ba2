/** What the checksum is: the remainder of the message polynomial modulo the generator, as section 8 of RFC 1952 and section
    3.2.9 of IEEE 802.3 define it. */
module CrcPolynomial {
  import opened Bytes
  import opened Words
  import opened Crc32

  // ----- Polynomials over GF(2), as the sets of their exponents -----

  type Poly = set<nat>

  function Add(a: Poly, b: Poly): Poly {
    (a - b) + (b - a)
  }

  /** p * x^k */
  function Shift(p: Poly, k: nat): Poly {
    set e | e in p :: e + k
  }

  /** The generator of IEEE 802.3. */
  const GENERATOR: Poly := {32, 26, 23, 22, 16, 12, 11, 10, 8, 7, 5, 4, 2, 1, 0}

  /** The generator times the sum of the powers in q. */
  function Multiple(q: seq<nat>): Poly {
    if q == [] then {} else Add(Shift(GENERATOR, q[0]), Multiple(q[1..]))
  }

  /** The difference is a multiple of the generator. */
  ghost predicate Congruent(a: Poly, b: Poly) {
    exists q :: Add(a, b) == Multiple(q)
  }

  /** The bits of the bytes as they are sent, the least significant of a byte first; the first is the highest power. */
  function Message(data: bytes): Poly {
    set e | 0 <= e < 8 * |data| && Sent(data, e)
  }

  predicate Sent(data: bytes, e: nat)
    requires e < 8 * |data|
  {
    Bit(FromByte(data[|data| - 1 - e / 8]), 7 - e % 8)
  }

  /** The register read as a remainder: bit 0 is the coefficient of x^31. */
  function Register(w: Word): Poly {
    set e | 0 <= e < 32 && Coefficient(w, e)
  }

  predicate Coefficient(w: Word, e: nat)
    requires e < 32
  {
    Bit(w, 31 - e)
  }

  const ALL_ONES: Poly := set e | 0 <= e < 32

  // ----- Arithmetic -----

  lemma AddGroup(a: Poly, b: Poly, c: Poly)
    ensures Add(a, b) == Add(b, a) && Add(Add(a, b), c) == Add(a, Add(b, c))
    ensures Add(a, {}) == a && Add(a, a) == {}
  {}

  lemma AddAround(a: Poly, b: Poly, c: Poly)
    ensures Add(Add(a, b), Add(b, c)) == Add(a, c)
  {}

  lemma AddPairs(a: Poly, b: Poly, c: Poly, d: Poly)
    ensures Add(Add(a, b), Add(c, d)) == Add(Add(a, c), Add(b, d))
  {}

  lemma ShiftAdd(a: Poly, b: Poly, k: nat)
    ensures Shift(Add(a, b), k) == Add(Shift(a, k), Shift(b, k))
  {
    forall e: nat
      ensures e in Shift(Add(a, b), k) <==> e in Add(Shift(a, k), Shift(b, k))
    {
      ShiftHas(a, k, e);
      ShiftHas(b, k, e);
      ShiftHas(Add(a, b), k, e);
    }
  }

  lemma ShiftHas(p: Poly, k: nat, e: nat)
    ensures e in Shift(p, k) <==> e >= k && e - k in p
  {
    if e >= k && e - k in p {
      assert (e - k) + k in Shift(p, k);
    }
  }

  lemma ShiftShift(p: Poly, j: nat, k: nat)
    ensures Shift(Shift(p, j), k) == Shift(p, j + k)
  {
    forall e: nat
      ensures e in Shift(Shift(p, j), k) <==> e in Shift(p, j + k)
    {
      ShiftHas(Shift(p, j), k, e);
      ShiftHas(p, j + k, e);
      if e >= k {
        ShiftHas(p, j, e - k);
      }
    }
  }

  lemma {:induction false} MultipleJoin(p: seq<nat>, q: seq<nat>)
    ensures Multiple(p + q) == Add(Multiple(p), Multiple(q))
    decreases |p|
  {
    hide Add, Shift;
    if p == [] {
      assert p + q == q;
      AddGroup(Multiple(q), {}, {});
    } else {
      assert (p + q)[0] == p[0] && (p + q)[1..] == p[1..] + q;
      MultipleJoin(p[1..], q);
      AddGroup(Shift(GENERATOR, p[0]), Multiple(p[1..]), Multiple(q));
    }
  }

  lemma {:induction false} MultipleShift(q: seq<nat>, k: nat)
    ensures exists r :: Multiple(r) == Shift(Multiple(q), k)
    decreases |q|
  {
    hide Add;
    if q == [] {
      assert Multiple([]) == Shift({}, k);
    } else {
      MultipleShift(q[1..], k);
      var r :| Multiple(r) == Shift(Multiple(q[1..]), k);
      ShiftAdd(Shift(GENERATOR, q[0]), Multiple(q[1..]), k);
      ShiftShift(GENERATOR, q[0], k);
      assert Multiple([q[0] + k] + r) == Add(Shift(GENERATOR, q[0] + k), Multiple(r));
    }
  }

  lemma SameCongruent(a: Poly)
    ensures Congruent(a, a)
  {
    assert Add(a, a) == Multiple([]);
  }

  lemma CongruentTransitive(a: Poly, b: Poly, c: Poly)
    requires Congruent(a, b) && Congruent(b, c)
    ensures Congruent(a, c)
  {
    hide Add, Multiple;
    var p :| Add(a, b) == Multiple(p);
    var q :| Add(b, c) == Multiple(q);
    MultipleJoin(p, q);
    AddAround(a, b, c);
    assert Add(a, c) == Multiple(p + q);
  }

  lemma CongruentShift(a: Poly, b: Poly, k: nat)
    requires Congruent(a, b)
    ensures Congruent(Shift(a, k), Shift(b, k))
  {
    hide Add, Multiple, Shift;
    var q :| Add(a, b) == Multiple(q);
    MultipleShift(q, k);
    ShiftAdd(a, b, k);
  }

  lemma CongruentAdd(a: Poly, b: Poly, c: Poly)
    requires Congruent(a, b)
    ensures Congruent(Add(a, c), Add(b, c))
  {
    hide Add, Multiple;
    var q :| Add(a, b) == Multiple(q);
    AddPairs(a, c, b, c);
    AddGroup(Add(a, b), Add(c, c), {});
    AddGroup(c, c, c);
    assert Add(Add(a, c), Add(b, c)) == Multiple(q);
  }

  // ----- The remainder is unique -----

  predicate Distinct(q: seq<nat>) {
    forall i, j :: 0 <= i < j < |q| ==> q[i] != q[j]
  }

  lemma {:induction false} MultipleBelow(q: seq<nat>, m: nat)
    requires forall e <- q :: e < m
    ensures forall e <- Multiple(q) :: e < m + 32
    decreases |q|
  {
    hide Shift;
    if q != [] {
      assert q[0] in q && forall e <- q[1..] :: e in q;
      MultipleBelow(q[1..], m);
      forall e | e in Shift(GENERATOR, q[0])
        ensures e < m + 32
      {
        ShiftHas(GENERATOR, q[0], e);
      }
    }
  }

  /** Two equal powers cancel. */
  lemma Cancelled(q: seq<nat>, i: nat, j: nat)
    requires i < j < |q| && q[i] == q[j]
    ensures Multiple(q[..i] + q[i + 1..j] + q[j + 1..]) == Multiple(q)
  {
    hide Add, Shift, Multiple;
    var a, b, c := q[..i], q[i + 1..j], q[j + 1..];
    TakenApart(q, i, j);
    var g := Multiple([q[i]]);
    MultipleJoin(a, [q[i]] + (b + ([q[i]] + c)));
    MultipleJoin([q[i]], b + ([q[i]] + c));
    MultipleJoin(b, [q[i]] + c);
    MultipleJoin([q[i]], c);
    MultipleJoin(a, b + c);
    MultipleJoin(b, c);
    CancelSame(g, Multiple(b), Multiple(c));
  }

  lemma TakenApart(q: seq<nat>, i: nat, j: nat)
    requires i < j < |q| && q[i] == q[j]
    ensures q == q[..i] + ([q[i]] + (q[i + 1..j] + ([q[i]] + q[j + 1..])))
    ensures q[..i] + q[i + 1..j] + q[j + 1..] == q[..i] + (q[i + 1..j] + q[j + 1..])
  {}

  lemma CancelSame(g: Poly, b: Poly, c: Poly)
    ensures Add(g, Add(b, Add(g, c))) == Add(b, c)
  {}

  /** No multiple of the generator but zero has degree below 32. */
  lemma {:induction false} MultipleDegree(q: seq<nat>)
    ensures Multiple(q) == {} || exists e :: e in Multiple(q) && e >= 32
    decreases |q|
  {
    if !Distinct(q) {
      var i, j :| 0 <= i < j < |q| && q[i] == q[j];
      Cancelled(q, i, j);
      MultipleDegree(q[..i] + q[i + 1..j] + q[j + 1..]);
    } else if q != [] {
      var i := Largest(q);
      TopTerm(q, i);
    }
  }

  lemma {:induction false} Largest(q: seq<nat>) returns (i: nat)
    requires q != []
    ensures i < |q| && forall e <- q :: e <= q[i]
    decreases |q|
  {
    if |q| == 1 {
      i := 0;
    } else {
      var k := Largest(q[1..]);
      assert q == [q[0]] + q[1..];
      i := if q[0] > q[k + 1] then 0 else k + 1;
    }
  }

  lemma OthersBelow(q: seq<nat>, i: nat, rest: seq<nat>)
    requires Distinct(q) && i < |q| && (forall e <- q :: e <= q[i]) && rest == q[..i] + q[i + 1..]
    ensures forall e <- rest :: e < q[i]
  {
    forall e | e in rest
      ensures e < q[i]
    {
      var k :| 0 <= k < |rest| && rest[k] == e;
      var at := if k < i then k else k + 1;
      assert e == q[at] && at != i && q[at] in q;
    }
  }

  lemma TopTerm(q: seq<nat>, i: nat)
    requires Distinct(q) && i < |q| && forall e <- q :: e <= q[i]
    ensures q[i] + 32 in Multiple(q)
  {
    hide Shift, Multiple, Add, Distinct;
    var low, high := q[..i], q[i + 1..];
    OthersBelow(q, i, low + high);
    MultipleBelow(low + high, q[i]);
    MultipleJoin(low, high);
    assert q == low + ([q[i]] + high);
    MultipleJoin(low, [q[i]] + high);
    MultipleJoin([q[i]], high);
    MultipleOne(q[i]);
    MiddleOut(Multiple(low), Multiple([q[i]]), Multiple(high));
    OnlyIn(Multiple([q[i]]), Multiple(low + high), q[i] + 32);
  }

  lemma OnlyIn(g: Poly, r: Poly, e: nat)
    requires e in g && e !in r
    ensures e in Add(g, r)
  {}

  lemma MultipleOne(k: nat)
    ensures k + 32 in Multiple([k])
  {
    ShiftHas(GENERATOR, k, k + 32);
    assert Multiple([k]) == Add(Shift(GENERATOR, k), Multiple([]));
  }

  lemma MiddleOut(a: Poly, g: Poly, c: Poly)
    ensures Add(a, Add(g, c)) == Add(g, Add(a, c))
  {}

  /** Of two congruent polynomials of degree below 32 there is only one. */
  lemma RemainderUnique(a: Poly, b: Poly)
    requires Congruent(a, b) && a <= ALL_ONES && b <= ALL_ONES
    ensures a == b
  {
    var q :| Add(a, b) == Multiple(q);
    MultipleDegree(q);
    assert Add(a, b) == {};
    assert forall e :: e in a <==> e in b;
  }

  // ----- The register -----

  lemma RegisterXor(a: Word, b: Word)
    ensures Register(Xor(a, b)) == Add(Register(a), Register(b))
  {
    hide Xor, Bit;
    forall e: nat | e < 32
      ensures Coefficient(Xor(a, b), e) <==> Coefficient(a, e) != Coefficient(b, e)
    {
      XorBit(a, b, 31 - e);
    }
  }

  lemma {:induction false} BitAbove(w: Word, n: nat)
    requires Fits(w, n)
    ensures !Bit(w, n)
    decreases n
  {
    hide Mask, Fits, Odd, Shr;
    if n == 0 {
      FitsBasics(w);
      ZeroEven();
    } else {
      FitsShift(w, n - 1);
      BitAbove(Shr(w), n - 1);
    }
  }

  lemma ZeroEven()
    ensures !Odd(ZERO)
  {}

  /** A zero bit multiplies by x, before the leading term is reduced. */
  lemma RegisterShr(w: Word)
    ensures Register(Shr(w)) == Shift(Register(w), 1) - {32}
  {
    hide Shift;
    forall e: nat | e < 32
      ensures Coefficient(Shr(w), e) <==> e > 0 && Coefficient(w, e - 1)
    {
      if e == 0 {
        FitsBasics(w);
        BitAbove(w, 32);
      }
    }
    forall e: nat
      ensures e in Shift(Register(w), 1) - {32} <==> e in Register(Shr(w))
    {
      ShiftHas(Register(w), 1, e);
    }
  }

  /** POLY is the generator without its leading term. */
  lemma PolyIsGenerator()
    ensures Register(Word(POLY)) == GENERATOR - {32}
  {
    hide Bit;
    FourBits(0xEDB8_8320);
    FourBits(0x0EDB_8832);
    FourBits(0x00ED_B883);
    FourBits(0x000E_DB88);
    FourBits(0x0000_EDB8);
    FourBits(0x0000_0EDB);
    FourBits(0x0000_00ED);
    FourBits(0x0000_000E);
  }

  // ----- The register holds the remainder -----

  lemma ZeroRegister()
    ensures Register(ZERO) == {}
  {
    forall e: nat | e < 32
      ensures !Coefficient(ZERO, e)
    {
      FitsZero(31 - e);
      BitAbove(ZERO, 31 - e);
    }
  }

  lemma FitsZero(n: nat)
    ensures Fits(ZERO, n)
  {}

  lemma TopCoefficient(c: Word)
    ensures 31 in Register(c) <==> Odd(c)
  {
    assert Coefficient(c, 31) == Bit(c, 0);
  }

  lemma FeedbackBranch(c: Word)
    ensures Feedback(c) == if Odd(c) then Word(POLY) else ZERO
  {}

  /** One zero bit multiplies by x modulo the generator. */
  lemma StepCongruent(c: Word)
    ensures Congruent(Register(Step(c)), Shift(Register(c), 1))
  {
    hide Register, Shift, Feedback, Step, Xor, Shr, Odd;
    var s := Shift(Register(c), 1);
    StepSplit(c);
    RegisterXor(Shr(c), Feedback(c));
    RegisterShr(c);
    FeedbackBranch(c);
    TopCoefficient(c);
    ShiftHas(Register(c), 1, 32);
    if Odd(c) {
      PolyIsGenerator();
      MultipleUnit();
      assert Add(Register(Step(c)), s) == Multiple([0]);
    } else {
      ZeroRegister();
      assert 32 !in s && s - {32} == s;
      AddGroup(s, {}, {});
      SameCongruent(s);
    }
  }

  lemma MultipleUnit()
    ensures Multiple([0]) == GENERATOR
  {
    forall e: nat
      ensures e in Shift(GENERATOR, 0) <==> e in GENERATOR
    {
      ShiftHas(GENERATOR, 0, e);
    }
    assert Multiple([0]) == Add(Shift(GENERATOR, 0), Multiple([]));
  }

  lemma ShiftNone(p: Poly)
    ensures Shift(p, 0) == p
  {
    forall e: nat
      ensures e in Shift(p, 0) <==> e in p
    {
      ShiftHas(p, 0, e);
    }
  }

  lemma {:induction false} StepsCongruent(c: Word, k: nat)
    ensures Congruent(Register(Steps(c, k)), Shift(Register(c), k))
    decreases k
  {
    hide Register, Shift, Step, Congruent;
    if k == 0 {
      ShiftNone(Register(c));
      SameCongruent(Register(c));
    } else {
      StepCongruent(c);
      StepsCongruent(Step(c), k - 1);
      CongruentShift(Register(Step(c)), Shift(Register(c), 1), k - 1);
      ShiftShift(Register(c), 1, k - 1);
      CongruentTransitive(Register(Steps(c, k)), Shift(Register(Step(c)), k - 1), Shift(Register(c), k));
    }
  }

  /** A byte enters the register at the top eight powers. */
  lemma ByteRegister(b: byte)
    ensures Register(FromByte(b)) == Shift(Message([b]), 24)
  {
    hide FromByte, Bit, Fits, Shift;
    FitsByte(b);
    forall e: nat | e < 32
      ensures e in Register(FromByte(b)) <==> e in Shift(Message([b]), 24)
    {
      ShiftHas(Message([b]), 24, e);
      if e < 24 {
        FitsWider(FromByte(b), 8, 31 - e);
        BitAbove(FromByte(b), 31 - e);
      } else {
        assert e - 24 in Message([b]) <==> Sent([b], e - 24);
      }
    }
    forall e: nat | e >= 32
      ensures e !in Shift(Message([b]), 24)
    {
      ShiftHas(Message([b]), 24, e);
    }
  }

  lemma MessageCons(data: bytes)
    requires data != []
    ensures Message(data) == Add(Shift(Message([data[0]]), 8 * (|data| - 1)), Message(data[1..]))
  {
    hide Shift, Bit;
    var n := |data| - 1;
    forall e: nat
      ensures e in Message(data) <==> e in Add(Shift(Message([data[0]]), 8 * n), Message(data[1..]))
    {
      ShiftHas(Message([data[0]]), 8 * n, e);
      if e < 8 * n {
        assert data[1..][n - 1 - e / 8] == data[n - e / 8];
      } else if e < 8 * (n + 1) {
        FirstByte(n, e);
      }
    }
  }

  lemma FirstByte(n: nat, e: nat)
    requires 8 * n <= e < 8 * (n + 1)
    ensures e / 8 == n && (e - 8 * n) / 8 == 0 && (e - 8 * n) % 8 == e % 8
  {}

  lemma {:induction false} RawCongruent(c: Word, data: bytes)
    ensures Congruent(Register(Raw(c, data)), Add(Shift(Register(c), 8 * |data|), Shift(Message(data), 32)))
    decreases |data|
  {
    hide Register, Shift, Message, Steps, Congruent, FromByte, Xor, Add;
    if data == [] {
      ShiftNone(Register(c));
      NoMessage();
      AddGroup(Register(c), {}, {});
      SameCongruent(Register(c));
    } else {
      var rest, m := data[1..], 8 * (|data| - 1);
      var byte := Message([data[0]]);
      var d := Steps(Xor(c, FromByte(data[0])), 8);
      RawCongruent(d, rest);
      ByteIn(c, data[0]);
      var entered := Add(Shift(Register(c), 8), Shift(byte, 32));
      CongruentShift(Register(d), entered, m);
      CongruentAdd(Shift(Register(d), m), Shift(entered, m), Shift(Message(rest), 32));
      CongruentTransitive(Register(Raw(c, data)), Add(Shift(Register(d), m), Shift(Message(rest), 32)),
                          Add(Shift(entered, m), Shift(Message(rest), 32)));
      Collected(Register(c), byte, Message(rest), m);
      MessageCons(data);
    }
  }

  lemma NoMessage()
    ensures Shift(Message([]), 32) == {}
  {
    assert Message([]) == {};
  }

  lemma ByteIn(c: Word, b: byte)
    ensures Congruent(Register(Steps(Xor(c, FromByte(b)), 8)), Add(Shift(Register(c), 8), Shift(Message([b]), 32)))
  {
    hide Register, Shift, Message, Steps, Congruent, FromByte, Xor, Add;
    StepsCongruent(Xor(c, FromByte(b)), 8);
    RegisterXor(c, FromByte(b));
    ByteRegister(b);
    ShiftAdd(Register(c), Shift(Message([b]), 24), 8);
    ShiftShift(Message([b]), 24, 8);
  }

  lemma Collected(r: Poly, b: Poly, rest: Poly, m: nat)
    ensures Add(Shift(Add(Shift(r, 8), Shift(b, 32)), m), Shift(rest, 32))
         == Add(Shift(r, 8 + m), Shift(Add(Shift(b, m), rest), 32))
  {
    hide Shift, Add;
    ShiftAdd(Shift(r, 8), Shift(b, 32), m);
    ShiftShift(r, 8, m);
    ShiftShift(b, 32, m);
    ShiftAdd(Shift(b, m), rest, 32);
    ShiftShift(b, m, 32);
    AddGroup(Shift(r, 8 + m), Shift(b, m + 32), Shift(rest, 32));
  }

  // ----- The checksum -----

  /** The message, followed by 32 zero bits, with the first 32 bits sent complemented. */
  function Dividend(data: bytes): Poly {
    Add(Shift(Message(data), 32), Shift(ALL_ONES, 8 * |data|))
  }

  lemma OnesRegister()
    ensures Register(ONES) == ALL_ONES
  {
    hide Bit;
    FourBits(0xFFFF_FFFF);
    FourBits(0x0FFF_FFFF);
    FourBits(0x00FF_FFFF);
    FourBits(0x000F_FFFF);
    FourBits(0x0000_FFFF);
    FourBits(0x0000_0FFF);
    FourBits(0x0000_00FF);
    FourBits(0x0000_000F);
  }

  /** For every message the checksum, complemented back, is congruent to the dividend: it is its remainder. */
  lemma CrcCongruent(data: bytes)
    ensures Congruent(Register(Xor(Crc(data), ONES)), Dividend(data))
  {
    hide Register, Shift, Message, Congruent, Xor, Raw, Add;
    RawCongruent(ONES, data);
    OnesRegister();
    XorCancel(Raw(ONES, data), ZERO, ONES);
    AddGroup(Shift(ALL_ONES, 8 * |data|), Shift(Message(data), 32), {});
  }

  lemma {:induction false} NoBits(w: Word, n: nat)
    requires Fits(w, n) && forall i :: 0 <= i < n ==> !Bit(w, i)
    ensures w == ZERO
    decreases n
  {
    hide Fits, Mask, Odd, Shr, Xor;
    if n == 0 {
      FitsBasics(w);
    } else {
      FitsShift(w, n - 1);
      forall i | 0 <= i < n - 1
        ensures !Bit(Shr(w), i)
      {
        assert !Bit(w, i + 1);
      }
      NoBits(Shr(w), n - 1);
      assert !Bit(w, 0);
      EvenHalf(w);
    }
  }

  lemma EvenHalf(w: Word)
    requires !Odd(w) && Shr(w) == ZERO
    ensures w == ZERO
  {
    assert w.bits >> 1 == 0;
  }

  lemma RegisterInjective(a: Word, b: Word)
    requires Register(a) == Register(b)
    ensures a == b
  {
    hide Xor, Fits, Bit;
    var x := Xor(a, b);
    RegisterXor(a, b);
    assert Register(x) == {};
    forall i | 0 <= i < 32
      ensures !Bit(x, i)
    {
      assert Coefficient(x, 31 - i) == Bit(x, i);
      assert 31 - i !in Register(x);
    }
    FitsBasics(x);
    NoBits(x, 32);
    XorCancel(a, b, b);
    XorGroup(b, b, b);
  }

  /** The checksum of a message is the one word whose complement is the remainder of the message, followed by 32 zero bits and
      with its first 32 bits complemented, modulo the generator. */
  lemma CrcIsRemainder(data: bytes, w: Word)
    ensures w == Crc(data) <==> Congruent(Register(Xor(w, ONES)), Dividend(data))
  {
    hide Dividend, Congruent, Crc, Xor;
    CrcCongruent(data);
    if Congruent(Register(Xor(w, ONES)), Dividend(data)) {
      var r := Register(Xor(Crc(data), ONES));
      CongruentBack(r, Dividend(data));
      CongruentTransitive(Register(Xor(w, ONES)), Dividend(data), r);
      RemainderUnique(Register(Xor(w, ONES)), r);
      RegisterInjective(Xor(w, ONES), Xor(Crc(data), ONES));
      XorCancel(w, Crc(data), ONES);
    }
  }

  lemma CheckValue()
    ensures Crc([0x61]) == Word(0xE8B7_BE43)
    ensures WordBytes(Crc([0x61])) == [0x43, 0xBE, 0xB7, 0xE8]
  {}

  lemma CongruentBack(a: Poly, b: Poly)
    requires Congruent(a, b)
    ensures Congruent(b, a)
  {
    AddGroup(a, b, {});
  }
}
