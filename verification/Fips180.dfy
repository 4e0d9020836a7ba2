/** What FIPS 180-4 says the constants and functions of SHA-256 are. */
module Fips180 {
  import opened Bytes
  import opened Words
  import opened Sha256

  // ----- Sections 4.2.2 and 5.3.3: the constants -----

  ghost predicate IsPrime(n: nat) {
    n >= 2 && forall d :: 2 <= d < n ==> n % d != 0
  }

  /** The first 64 primes, eight to a row. */
  const PRIMES: seq<seq<nat>> := [
    [2, 3, 5, 7, 11, 13, 17, 19],
    [23, 29, 31, 37, 41, 43, 47, 53],
    [59, 61, 67, 71, 73, 79, 83, 89],
    [97, 101, 103, 107, 109, 113, 127, 131],
    [137, 139, 149, 151, 157, 163, 167, 173],
    [179, 181, 191, 193, 197, 199, 211, 223],
    [227, 229, 233, 239, 241, 251, 257, 263],
    [269, 271, 277, 281, 283, 293, 307, 311]
  ]

  function Prime(t: nat): nat
    requires t < 64
  {
    PRIMES[t / 8][t % 8]
  }

  /** A factor below 18. */
  predicate SmallFactor(n: nat) {
    || (n > 2 && n % 2 == 0) || (n > 3 && n % 3 == 0) || (n > 5 && n % 5 == 0) || (n > 7 && n % 7 == 0)
    || (n > 11 && n % 11 == 0) || (n > 13 && n % 13 == 0) || (n > 17 && n % 17 == 0)
  }

  lemma MultipleOf(n: nat, d: nat, e: nat, p: nat)
    requires n == d * e && p > 0 && d % p == 0
    ensures n % p == 0
  {
    var q := d / p;
    assert d == p * q;
    assert (p * q) * e == p * (q * e);
    WholeMultiple(n, p, q * e);
  }

  lemma WholeMultiple(n: nat, p: nat, k: nat)
    requires p > 0 && n == p * k
    ensures n % p == 0
  {
    var x := k - n / p;
    assert n == p * (n / p) + n % p;
    assert p * x == p * k - p * (n / p);
    if x >= 1 {
      AtLeast(p, x);
    } else {
      AtMost(p, x);
    }
  }

  lemma AtLeast(p: nat, x: int)
    requires x >= 1
    ensures p * x >= p
  {}

  lemma AtMost(p: nat, x: int)
    requires x <= 0
    ensures p * x <= 0
  {}

  lemma SomePrime(d: nat) returns (p: nat)
    requires 2 <= d <= 18
    ensures p in {2, 3, 5, 7, 11, 13, 17} && p <= d && d % p == 0
  {
    p := if d % 2 == 0 then 2 else if d % 3 == 0 then 3 else if d % 5 == 0 then 5 else d;
  }

  lemma HasFactor(n: nat, p: nat)
    requires p in {2, 3, 5, 7, 11, 13, 17} && n > p && n % p == 0
    ensures SmallFactor(n)
  {}

  lemma FactorBelow18(n: nat, d: nat, e: nat)
    requires n == d * e && 2 <= d <= 18 && d < n
    ensures SmallFactor(n)
  {
    hide SmallFactor;
    var p := SomePrime(d);
    MultipleOf(n, d, e, p);
    HasFactor(n, p);
  }

  /** Below 19 * 19 a number is prime exactly when it has no factor below 18. */
  lemma PrimeIff(n: nat)
    requires 2 <= n < 361
    ensures IsPrime(n) <==> !SmallFactor(n)
  {
    if !IsPrime(n) {
      var d :| 2 <= d < n && n % d == 0;
      var e := n / d;
      assert n == d * e == e * d;
      if d <= 18 {
        FactorBelow18(n, d, e);
      } else {
        Cofactor(n, d, e);
        FactorBelow18(n, e, d);
      }
    }
  }

  lemma Cofactor(n: nat, d: nat, e: nat)
    requires n == d * e && 19 <= d < n < 361
    ensures 2 <= e <= 18 && e < n
  {
    AtLeast19(d, e);
  }

  lemma AtLeast19(d: nat, e: nat)
    requires d >= 19
    ensures e >= 19 ==> d * e >= 361
    ensures e >= 2 || d * e <= d
  {
    assert d * e == 19 * e + (d - 19) * e;
  }

  function Previous(t: nat): nat
    requires t < 64
  {
    if t == 0 then 1 else Prime(t - 1)
  }

  predicate AllComposite(low: nat, high: nat)
    decreases high - low
  {
    low >= high || (SmallFactor(low) && AllComposite(low + 1, high))
  }

  lemma {:induction false} AllCompositeMeans(low: nat, high: nat)
    requires AllComposite(low, high)
    ensures forall n :: low <= n < high ==> SmallFactor(n)
    decreases high - low
  {
    hide SmallFactor;
    if low < high {
      AllCompositeMeans(low + 1, high);
    }
  }

  /** The prime p comes after the number q, with only composites between. */
  predicate Next(q: nat, p: nat) {
    1 <= q < p < 361 && !SmallFactor(p) && AllComposite(q + 1, p)
  }

  /** The primes in order, none left out. */
  lemma PrimesInOrder(t: nat)
    requires t < 64
    ensures IsPrime(Prime(t)) && Previous(t) < Prime(t) && forall n :: Previous(t) < n < Prime(t) ==> !IsPrime(n)
  {
    hide SmallFactor, Prime, Previous, AllComposite;
    Sieve(t);
    var q, p := Previous(t), Prime(t);
    PrimeIff(p);
    AllCompositeMeans(q + 1, p);
    forall n | q < n < p
      ensures !IsPrime(n)
    {
      PrimeIff(n);
    }
  }

  lemma Sieve(t: nat)
    requires t < 64
    ensures Next(Previous(t), Prime(t))
  {
    hide Next, Prime, Previous;
    match t / 8
    case 0 => Sieve0(t);
    case 1 => Sieve1(t);
    case 2 => Sieve2(t);
    case 3 => Sieve3(t);
    case 4 => Sieve4(t);
    case 5 => Sieve5(t);
    case 6 => Sieve6(t);
    case 7 => Sieve7(t);
  }

  lemma Chain0()
    ensures Next(1, 2) && Next(2, 3) && Next(3, 5) && Next(5, 7)
    ensures Next(7, 11) && Next(11, 13) && Next(13, 17) && Next(17, 19)
  {}

  lemma Sieve0(t: nat)
    requires t / 8 == 0
    ensures Next(Previous(t), Prime(t))
  {
    hide Next;
    Chain0();
  }

  lemma Chain1()
    ensures Next(19, 23) && Next(23, 29) && Next(29, 31) && Next(31, 37)
    ensures Next(37, 41) && Next(41, 43) && Next(43, 47) && Next(47, 53)
  {}

  lemma Sieve1(t: nat)
    requires t / 8 == 1
    ensures Next(Previous(t), Prime(t))
  {
    hide Next;
    Chain1();
  }

  lemma Chain2()
    ensures Next(53, 59) && Next(59, 61) && Next(61, 67) && Next(67, 71)
    ensures Next(71, 73) && Next(73, 79) && Next(79, 83) && Next(83, 89)
  {}

  lemma Sieve2(t: nat)
    requires t / 8 == 2
    ensures Next(Previous(t), Prime(t))
  {
    hide Next;
    Chain2();
  }

  lemma Chain3()
    ensures Next(89, 97) && Next(97, 101) && Next(101, 103) && Next(103, 107)
    ensures Next(107, 109) && Next(109, 113) && Next(113, 127) && Next(127, 131)
  {}

  lemma Sieve3(t: nat)
    requires t / 8 == 3
    ensures Next(Previous(t), Prime(t))
  {
    hide Next;
    Chain3();
  }

  lemma Chain4()
    ensures Next(131, 137) && Next(137, 139) && Next(139, 149) && Next(149, 151)
    ensures Next(151, 157) && Next(157, 163) && Next(163, 167) && Next(167, 173)
  {}

  lemma Sieve4(t: nat)
    requires t / 8 == 4
    ensures Next(Previous(t), Prime(t))
  {
    hide Next;
    Chain4();
  }

  lemma Chain5()
    ensures Next(173, 179) && Next(179, 181) && Next(181, 191) && Next(191, 193)
    ensures Next(193, 197) && Next(197, 199) && Next(199, 211) && Next(211, 223)
  {}

  lemma Sieve5(t: nat)
    requires t / 8 == 5
    ensures Next(Previous(t), Prime(t))
  {
    hide Next;
    Chain5();
  }

  lemma Chain6()
    ensures Next(223, 227) && Next(227, 229) && Next(229, 233) && Next(233, 239)
    ensures Next(239, 241) && Next(241, 251) && Next(251, 257) && Next(257, 263)
  {}

  lemma Sieve6(t: nat)
    requires t / 8 == 6
    ensures Next(Previous(t), Prime(t))
  {
    hide Next;
    Chain6();
  }

  lemma Chain7()
    ensures Next(263, 269) && Next(269, 271) && Next(271, 277) && Next(277, 281)
    ensures Next(281, 283) && Next(283, 293) && Next(293, 307) && Next(307, 311)
  {}

  lemma Sieve7(t: nat)
    requires t / 8 == 7
    ensures Next(Previous(t), Prime(t))
  {
    hide Next;
    Chain7();
  }

  /** The whole parts of their cube roots. */
  const CUBE_WHOLES: seq<seq<nat>> := [
    [1, 1, 1, 1, 2, 2, 2, 2],
    [2, 3, 3, 3, 3, 3, 3, 3],
    [3, 3, 4, 4, 4, 4, 4, 4],
    [4, 4, 4, 4, 4, 4, 5, 5],
    [5, 5, 5, 5, 5, 5, 5, 5],
    [5, 5, 5, 5, 5, 5, 5, 6],
    [6, 6, 6, 6, 6, 6, 6, 6],
    [6, 6, 6, 6, 6, 6, 6, 6]
  ]

  /** The first 32 bits of the fractional part of the cube root of p, the whole part of which is i. */
  ghost predicate CubeFraction(c: Word, i: nat, p: nat) {
    var k := 0x1_0000_0000 * i + c.bits as nat;
    var n := 0x1_0000_0000 * 0x1_0000_0000 * 0x1_0000_0000 * p;
    k * k * k <= n < (k + 1) * (k + 1) * (k + 1)
  }

  ghost predicate SquareFraction(c: Word, i: nat, p: nat) {
    var k := 0x1_0000_0000 * i + c.bits as nat;
    var n := 0x1_0000_0000 * 0x1_0000_0000 * p;
    k * k <= n < (k + 1) * (k + 1)
  }

  /** The round constants are the first 32 bits of the fractional parts of the cube roots of the first 64 primes. */
  lemma RoundConstants(t: nat)
    requires t < 64
    ensures exists i :: CubeFraction(RoundConstant(t), i, Prime(t))
  {
    hide CubeFraction, Prime, RoundConstant;
    match t / 8
    case 0 => CubeRow0(t);
    case 1 => CubeRow1(t);
    case 2 => CubeRow2(t);
    case 3 => CubeRow3(t);
    case 4 => CubeRow4(t);
    case 5 => CubeRow5(t);
    case 6 => CubeRow6(t);
    case 7 => CubeRow7(t);
  }

  lemma CubeRow0(t: nat)
    requires t / 8 == 0
    ensures CubeFraction(RoundConstant(t), CUBE_WHOLES[0][t % 8], Prime(t))
  {}

  lemma CubeRow1(t: nat)
    requires t / 8 == 1
    ensures CubeFraction(RoundConstant(t), CUBE_WHOLES[1][t % 8], Prime(t))
  {}

  lemma CubeRow2(t: nat)
    requires t / 8 == 2
    ensures CubeFraction(RoundConstant(t), CUBE_WHOLES[2][t % 8], Prime(t))
  {}

  lemma CubeRow3(t: nat)
    requires t / 8 == 3
    ensures CubeFraction(RoundConstant(t), CUBE_WHOLES[3][t % 8], Prime(t))
  {}

  lemma CubeRow4(t: nat)
    requires t / 8 == 4
    ensures CubeFraction(RoundConstant(t), CUBE_WHOLES[4][t % 8], Prime(t))
  {}

  lemma CubeRow5(t: nat)
    requires t / 8 == 5
    ensures CubeFraction(RoundConstant(t), CUBE_WHOLES[5][t % 8], Prime(t))
  {}

  lemma CubeRow6(t: nat)
    requires t / 8 == 6
    ensures CubeFraction(RoundConstant(t), CUBE_WHOLES[6][t % 8], Prime(t))
  {}

  lemma CubeRow7(t: nat)
    requires t / 8 == 7
    ensures CubeFraction(RoundConstant(t), CUBE_WHOLES[7][t % 8], Prime(t))
  {}

  /** The initial state is made of the square roots of the first eight primes in the same way. */
  lemma InitialState(t: nat)
    requires t < 8
    ensures exists i :: SquareFraction(IV()[t], i, Prime(t))
  {
    SquareRow(t);
  }

  lemma SquareRow(t: nat)
    requires t < 8
    ensures SquareFraction(IV()[t], [1, 1, 2, 2, 3, 3, 4, 4][t], Prime(t))
  {}

  // ----- Section 4.1.2: the functions, bit by bit -----

  /** Choice: x selects y or z. */
  lemma {:induction false} ChBits(x: Word, y: Word, z: Word, i: nat)
    ensures Bit(Ch(x, y, z), i) <==> if Bit(x, i) then Bit(y, i) else Bit(z, i)
    decreases i
  {
    hide Odd, Shr, Ch;
    if i == 0 {
      ChLow(x, y, z);
    } else {
      ChShr(x, y, z);
      ChBits(Shr(x), Shr(y), Shr(z), i - 1);
    }
  }

  lemma ChLow(x: Word, y: Word, z: Word)
    ensures Odd(Ch(x, y, z)) <==> if Odd(x) then Odd(y) else Odd(z)
  {}

  lemma ChShr(x: Word, y: Word, z: Word)
    ensures Shr(Ch(x, y, z)) == Ch(Shr(x), Shr(y), Shr(z))
  {}

  predicate Majority(a: bool, b: bool, c: bool) {
    (a && b) || (a && c) || (b && c)
  }

  /** Majority: at least two of three. */
  lemma {:induction false} MajBits(x: Word, y: Word, z: Word, i: nat)
    ensures Bit(Maj(x, y, z), i) <==> Majority(Bit(x, i), Bit(y, i), Bit(z, i))
    decreases i
  {
    hide Odd, Shr, Maj;
    if i == 0 {
      MajLow(x, y, z);
    } else {
      MajShr(x, y, z);
      MajBits(Shr(x), Shr(y), Shr(z), i - 1);
    }
  }

  lemma MajLow(x: Word, y: Word, z: Word)
    ensures Odd(Maj(x, y, z)) <==> Majority(Odd(x), Odd(y), Odd(z))
  {}

  lemma MajShr(x: Word, y: Word, z: Word)
    ensures Shr(Maj(x, y, z)) == Maj(Shr(x), Shr(y), Shr(z))
  {}

  /** i + n, around the end of a word. */
  function Around(i: nat, n: nat): nat
    requires i < 32 && n < 32
  {
    if i + n < 32 then i + n else i + n - 32
  }

  /** y is x with every bit moved n places down, around the end. */
  ghost predicate Rotated(x: Word, n: nat, y: Word)
    requires n < 32
  {
    forall i :: 0 <= i < 32 ==> (Bit(y, i) <==> Bit(x, Around(i, n)))
  }

  lemma RotatedJoin(x: Word, y: Word, z: Word, m: nat, n: nat)
    requires m + n < 32 && Rotated(x, m, y) && Rotated(y, n, z)
    ensures Rotated(x, m + n, z)
  {
    hide Bit;
    forall i | 0 <= i < 32
      ensures Bit(z, i) <==> Bit(x, Around(i, m + n))
    {
      assert Around(Around(i, n), m) == Around(i, m + n);
    }
  }

  const TOP := Word(0x8000_0000)

  lemma TopBits(i: nat)
    requires i < 32
    ensures Bit(TOP, i) <==> i == 31
  {
    hide Bit;
    FourBits(0x8000_0000);
    FourBits(0x0800_0000);
    FourBits(0x0080_0000);
    FourBits(0x0008_0000);
    FourBits(0x0000_8000);
    FourBits(0x0000_0800);
    FourBits(0x0000_0080);
    FourBits(0x0000_0008);
  }

  lemma RotrSplit(x: Word)
    ensures Rotr(x, 1) == Xor(Shr(x), if Odd(x) then TOP else Word(0))
  {}

  lemma NoBit32(x: Word)
    ensures !Bit(x, 32)
  {
    hide Bit, ShrBy;
    var a := ShrBy(x, 10);
    var b := ShrBy(a, 10);
    var c := ShrBy(b, 10);
    MovedTen(x);
    MovedTen(a);
    MovedTen(b);
    MovedTwo(c);
    assert Bit(x, 32) == Bit(a, 22) == Bit(b, 12) == Bit(c, 2) == Bit(ShrBy(c, 2), 0);
    NothingLeft(x);
    ZeroBit(0);
  }

  lemma NothingLeft(x: Word)
    ensures ShrBy(ShrBy(ShrBy(ShrBy(x, 10), 10), 10), 2) == Word(0)
  {}

  lemma RotrOne(x: Word)
    ensures Rotated(x, 1, Rotr(x, 1))
  {
    hide Odd, Shr, Xor, Rotr;
    RotrSplit(x);
    forall i | 0 <= i < 32
      ensures Bit(Rotr(x, 1), i) <==> Bit(x, Around(i, 1))
    {
      XorBit(Shr(x), if Odd(x) then TOP else Word(0), i);
      TopBits(i);
      ZeroBit(i);
      if i == 31 {
        NoBit32(x);
      }
    }
  }

  lemma Rotr2(x: Word)
    ensures Rotr(x, 2) == Rotr(Rotr(x, 1), 1)
  {}

  lemma Rotr4(x: Word)
    ensures Rotr(x, 4) == Rotr(Rotr(x, 2), 2)
  {}

  lemma Rotr6(x: Word)
    ensures Rotr(x, 6) == Rotr(Rotr(x, 2), 4)
  {}

  lemma Rotr7(x: Word)
    ensures Rotr(x, 7) == Rotr(Rotr(x, 6), 1)
  {}

  lemma Rotr11(x: Word)
    ensures Rotr(x, 11) == Rotr(Rotr(x, 7), 4)
  {}

  lemma Rotr13(x: Word)
    ensures Rotr(x, 13) == Rotr(Rotr(x, 11), 2)
  {}

  lemma Rotr17(x: Word)
    ensures Rotr(x, 17) == Rotr(Rotr(x, 13), 4)
  {}

  lemma Rotr18(x: Word)
    ensures Rotr(x, 18) == Rotr(Rotr(x, 17), 1)
  {}

  lemma Rotr19(x: Word)
    ensures Rotr(x, 19) == Rotr(Rotr(x, 18), 1)
  {}

  lemma Rotr22(x: Word)
    ensures Rotr(x, 22) == Rotr(Rotr(x, 18), 4)
  {}

  lemma Rotr25(x: Word)
    ensures Rotr(x, 25) == Rotr(Rotr(x, 19), 6)
  {}

  predicate Used(n: nat) {
    n in {1, 2, 4, 6, 7, 11, 13, 17, 18, 19, 22, 25}
  }

  function Turn(x: Word, n: nat): Word
    requires Used(n)
  {
    match n
    case 1 => Rotr(x, 1)
    case 2 => Rotr(x, 2)
    case 4 => Rotr(x, 4)
    case 6 => Rotr(x, 6)
    case 7 => Rotr(x, 7)
    case 11 => Rotr(x, 11)
    case 13 => Rotr(x, 13)
    case 17 => Rotr(x, 17)
    case 18 => Rotr(x, 18)
    case 19 => Rotr(x, 19)
    case 22 => Rotr(x, 22)
    case 25 => Rotr(x, 25)
  }

  /** Rotation, by each amount SHA-256 uses and those these are put together from. */
  lemma Rotations(x: Word, n: nat)
    requires Used(n)
    ensures Rotated(x, n, Turn(x, n))
    decreases n
  {
    hide Rotr, Rotated;
    if n == 1 {
      RotrOne(x);
    } else {
      var a, b := TurnJoin(x, n);
      Rotations(x, a);
      Rotations(Turn(x, a), b);
      RotatedJoin(x, Turn(x, a), Turn(x, n), a, b);
    }
  }

  lemma TurnJoin(x: Word, n: nat) returns (a: nat, b: nat)
    requires Used(n) && n > 1
    ensures a < n && b < n && a + b == n && Used(a) && Used(b)
    ensures Turn(x, n) == Turn(Turn(x, a), b)
  {
    hide Rotr;
    match n
    case 2 => a, b := 1, 1; Rotr2(x);
    case 4 => a, b := 2, 2; Rotr4(x);
    case 6 => a, b := 2, 4; Rotr6(x);
    case 7 => a, b := 6, 1; Rotr7(x);
    case 11 => a, b := 7, 4; Rotr11(x);
    case 13 => a, b := 11, 2; Rotr13(x);
    case 17 => a, b := 13, 4; Rotr17(x);
    case 18 => a, b := 17, 1; Rotr18(x);
    case 19 => a, b := 18, 1; Rotr19(x);
    case 22 => a, b := 18, 4; Rotr22(x);
    case 25 => a, b := 19, 6; Rotr25(x);
  }

  /** y is x moved n places down. */
  ghost predicate Moved(x: Word, n: nat, y: Word) {
    forall i :: i >= 0 ==> (Bit(y, i) <==> Bit(x, i + n))
  }

  lemma MovedJoin(x: Word, y: Word, z: Word, m: nat, n: nat)
    requires Moved(x, m, y) && Moved(y, n, z)
    ensures Moved(x, m + n, z)
  {
    hide Bit;
    forall i | i >= 0
      ensures Bit(z, i) <==> Bit(x, i + (m + n))
    {
      assert Bit(z, i) <==> Bit(y, i + n);
    }
  }

  lemma MovedOne(x: Word)
    ensures Moved(x, 1, ShrBy(x, 1))
  {
    assert ShrBy(x, 1) == Shr(x);
  }

  lemma Shr2(x: Word)
    ensures ShrBy(x, 2) == ShrBy(ShrBy(x, 1), 1)
  {}

  lemma Shr3(x: Word)
    ensures ShrBy(x, 3) == ShrBy(ShrBy(x, 2), 1)
  {}

  lemma Shr5(x: Word)
    ensures ShrBy(x, 5) == ShrBy(ShrBy(x, 3), 2)
  {}

  lemma Shr10(x: Word)
    ensures ShrBy(x, 10) == ShrBy(ShrBy(x, 5), 5)
  {}

  lemma MovedTwo(x: Word)
    ensures Moved(x, 2, ShrBy(x, 2))
  {
    hide ShrBy, Moved;
    Shr2(x);
    MovedOne(x);
    MovedOne(ShrBy(x, 1));
    MovedJoin(x, ShrBy(x, 1), ShrBy(x, 2), 1, 1);
  }

  lemma MovedThree(x: Word)
    ensures Moved(x, 3, ShrBy(x, 3))
  {
    hide ShrBy, Moved;
    Shr3(x);
    MovedTwo(x);
    MovedOne(ShrBy(x, 2));
    MovedJoin(x, ShrBy(x, 2), ShrBy(x, 3), 2, 1);
  }

  lemma MovedFive(x: Word)
    ensures Moved(x, 5, ShrBy(x, 5))
  {
    hide ShrBy, Moved;
    Shr5(x);
    MovedThree(x);
    MovedTwo(ShrBy(x, 3));
    MovedJoin(x, ShrBy(x, 3), ShrBy(x, 5), 3, 2);
  }

  lemma MovedTen(x: Word)
    ensures Moved(x, 10, ShrBy(x, 10))
  {
    hide ShrBy, Moved;
    Shr10(x);
    MovedFive(x);
    MovedFive(ShrBy(x, 5));
    MovedJoin(x, ShrBy(x, 5), ShrBy(x, 10), 5, 5);
  }

  lemma XorThree(a: Word, b: Word, c: Word, i: nat)
    ensures Bit(Xor(Xor(a, b), c), i) <==> ((Bit(a, i) != Bit(b, i)) != Bit(c, i))
  {
    hide Xor, Bit;
    XorBit(Xor(a, b), c, i);
    XorBit(a, b, i);
  }

  /** The four sigmas by the positions each bit comes from. */
  lemma SigmaBits(x: Word, i: nat)
    requires i < 32
    ensures Bit(BigSigma0(x), i) <==> ((Bit(x, Around(i, 2)) != Bit(x, Around(i, 13))) != Bit(x, Around(i, 22)))
    ensures Bit(BigSigma1(x), i) <==> ((Bit(x, Around(i, 6)) != Bit(x, Around(i, 11))) != Bit(x, Around(i, 25)))
    ensures Bit(SmallSigma0(x), i) <==> ((Bit(x, Around(i, 7)) != Bit(x, Around(i, 18))) != Bit(x, i + 3))
    ensures Bit(SmallSigma1(x), i) <==> ((Bit(x, Around(i, 17)) != Bit(x, Around(i, 19))) != Bit(x, i + 10))
  {
    hide BigSigma0, BigSigma1, SmallSigma0, SmallSigma1, Bit;
    BigSigma0Bits(x, i);
    BigSigma1Bits(x, i);
    SmallSigma0Bits(x, i);
    SmallSigma1Bits(x, i);
  }

  lemma TurnedBit(x: Word, n: nat, i: nat)
    requires Used(n) && i < 32
    ensures Bit(Turn(x, n), i) <==> Bit(x, Around(i, n))
  {
    hide Bit, Turn;
    Rotations(x, n);
  }

  lemma MovedBit(x: Word, n: nat, y: Word, i: nat)
    requires Moved(x, n, y)
    ensures Bit(y, i) <==> Bit(x, i + n)
  {
    hide Bit;
  }

  lemma BigSigma0Bits(x: Word, i: nat)
    requires i < 32
    ensures Bit(BigSigma0(x), i) <==> ((Bit(x, Around(i, 2)) != Bit(x, Around(i, 13))) != Bit(x, Around(i, 22)))
  {
    hide Rotr, ShrBy, Xor, Bit, Rotated, Moved;
    TurnedBit(x, 2, i);
    TurnedBit(x, 13, i);
    TurnedBit(x, 22, i);
    XorThree(Rotr(x, 2), Rotr(x, 13), Rotr(x, 22), i);
  }

  lemma BigSigma1Bits(x: Word, i: nat)
    requires i < 32
    ensures Bit(BigSigma1(x), i) <==> ((Bit(x, Around(i, 6)) != Bit(x, Around(i, 11))) != Bit(x, Around(i, 25)))
  {
    hide Rotr, ShrBy, Xor, Bit, Rotated, Moved;
    TurnedBit(x, 6, i);
    TurnedBit(x, 11, i);
    TurnedBit(x, 25, i);
    XorThree(Rotr(x, 6), Rotr(x, 11), Rotr(x, 25), i);
  }

  lemma SmallSigma0Bits(x: Word, i: nat)
    requires i < 32
    ensures Bit(SmallSigma0(x), i) <==> ((Bit(x, Around(i, 7)) != Bit(x, Around(i, 18))) != Bit(x, i + 3))
  {
    hide Rotr, ShrBy, Xor, Bit, Rotated, Moved;
    TurnedBit(x, 7, i);
    TurnedBit(x, 18, i);
    MovedThree(x);
    MovedBit(x, 3, ShrBy(x, 3), i);
    XorThree(Rotr(x, 7), Rotr(x, 18), ShrBy(x, 3), i);
  }

  lemma SmallSigma1Bits(x: Word, i: nat)
    requires i < 32
    ensures Bit(SmallSigma1(x), i) <==> ((Bit(x, Around(i, 17)) != Bit(x, Around(i, 19))) != Bit(x, i + 10))
  {
    hide Rotr, ShrBy, Xor, Bit, Rotated, Moved;
    TurnedBit(x, 17, i);
    TurnedBit(x, 19, i);
    MovedTen(x);
    MovedBit(x, 10, ShrBy(x, 10), i);
    XorThree(Rotr(x, 17), Rotr(x, 19), ShrBy(x, 10), i);
  }
}
