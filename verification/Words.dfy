/** 32-bit machine words. */
module Words {

  /** A uint32_t. Its operations are named, so that proofs use their laws and not their bits. */
  datatype Word = Word(bits: bv32)

  function Xor(a: Word, b: Word): Word {
    Word(a.bits ^ b.bits)
  }

  function Shr(v: Word): Word {
    Word(v.bits >> 1)
  }

  predicate Odd(v: Word) {
    v.bits & 1 == 1
  }

  /** The bit of weight 2^i. */
  predicate Bit(w: Word, i: nat)
    decreases i
  {
    if i == 0 then Odd(w) else Bit(Shr(w), i - 1)
  }

  lemma {:induction false} XorBit(a: Word, b: Word, i: nat)
    ensures Bit(Xor(a, b), i) <==> Bit(a, i) != Bit(b, i)
    decreases i
  {
    hide Odd, Shr, Xor;
    if i == 0 {
      XorOdd(a, b);
    } else {
      XorShr(a, b);
      XorBit(Shr(a), Shr(b), i - 1);
    }
  }

  lemma XorOdd(a: Word, b: Word)
    ensures Odd(Xor(a, b)) <==> Odd(a) != Odd(b)
  {
    var x, y := a.bits, b.bits;
    assert (x ^ y) & 1 == (x & 1) ^ (y & 1);
    assert x & 1 == 0 || x & 1 == 1;
    assert y & 1 == 0 || y & 1 == 1;
  }

  lemma XorShr(a: Word, b: Word)
    ensures Shr(Xor(a, b)) == Xor(Shr(a), Shr(b))
  {}

  /** Four bits and the rest. */
  lemma FourBits(x: bv32)
    ensures Bit(Word(x), 0) <==> Odd(Word(x))
    ensures Bit(Word(x), 1) <==> Odd(Word(x >> 1))
    ensures Bit(Word(x), 2) <==> Odd(Word(x >> 2))
    ensures Bit(Word(x), 3) <==> Odd(Word(x >> 3))
    ensures forall i :: i >= 4 ==> (Bit(Word(x), i) <==> Bit(Word(x >> 4), i - 4))
  {
    var w := Word(x);
    FourShifts(x);
    hide Odd, Shr;
    forall i | i >= 4
      ensures Bit(w, i) <==> Bit(Word(x >> 4), i - 4)
    {
      assert Bit(w, i) == Bit(Shr(w), i - 1) == Bit(Shr(Shr(w)), i - 2) == Bit(Shr(Shr(Shr(w))), i - 3);
    }
  }

  lemma FourShifts(x: bv32)
    ensures Shr(Word(x)) == Word(x >> 1) && Shr(Word(x >> 1)) == Word(x >> 2)
    ensures Shr(Word(x >> 2)) == Word(x >> 3) && Shr(Word(x >> 3)) == Word(x >> 4)
  {
    ShrOnce(x);
    ShrTwice(x);
    ShrThrice(x);
    ShrFourTimes(x);
    hide Shr;
  }

  lemma ShrOnce(x: bv32)
    ensures Shr(Word(x)) == Word(x >> 1)
  {}

  lemma ShrTwice(x: bv32)
    ensures Shr(Word(x >> 1)) == Word(x >> 2)
  {}

  lemma ShrThrice(x: bv32)
    ensures Shr(Word(x >> 2)) == Word(x >> 3)
  {}

  lemma ShrFourTimes(x: bv32)
    ensures Shr(Word(x >> 3)) == Word(x >> 4)
  {}

  lemma {:induction false} ZeroBit(i: nat)
    ensures !Bit(Word(0), i)
    decreases i
  {
    hide Odd, Shr;
    ZeroHalf();
    if i > 0 {
      ZeroBit(i - 1);
    }
  }

  lemma ZeroHalf()
    ensures !Odd(Word(0)) && Shr(Word(0)) == Word(0)
  {}
}
