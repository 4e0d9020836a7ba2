/** One published digest, that of "abc", carried out step by step. */
module Fips180Example {
  import opened Bytes
  import opened Words
  import opened Sha256

  const ABC: bytes := [0x61, 0x62, 0x63]

  const FIRST: bytes := [0x61, 0x62, 0x63, 0x80, 0, 0, 0, 0, 0, 0, 0, 0, 0, 0, 0, 0]
  const MIDDLE: bytes := [0, 0, 0, 0, 0, 0, 0, 0, 0, 0, 0, 0, 0, 0, 0, 0]
  const LAST: bytes := [0, 0, 0, 0, 0, 0, 0, 0, 0, 0, 0, 0, 0, 0, 0, 24]

  const BLOCK: bytes := FIRST + MIDDLE + MIDDLE + LAST

  lemma AbcPadded()
    ensures Pad(ABC) == BLOCK
  {
    BitCount();
    hide BigEndian;
    assert ZeroCount(3) == 52 && (8 * |ABC|) % TWO_64 == 24;
    assert Pad(ABC) == ABC + [0x80] + Zeros(52) + BigEndian(24, 8);
    assert |Pad(ABC)| == 64;
  }

  lemma BitCount()
    ensures BigEndian(24, 8) == [0, 0, 0, 0, 0, 0, 0, 24]
  {
    hide ToByte;
    ByteOf(0);
    ByteOf(24);
    assert BigEndian(0, 1) == [0];
    assert BigEndian(0, 2) == [0, 0];
    assert BigEndian(0, 3) == [0, 0, 0];
    assert BigEndian(0, 4) == [0, 0, 0, 0];
    assert BigEndian(0, 5) == [0, 0, 0, 0, 0];
    assert BigEndian(0, 6) == [0, 0, 0, 0, 0, 0];
    assert BigEndian(0, 7) == [0, 0, 0, 0, 0, 0, 0];
  }

  lemma ByteOf(n: nat)
    requires n == 0 || n == 24
    ensures ToByte(n) == if n == 0 then 0 else 24
  {}

  // ----- The message schedule -----

  ghost predicate At(t: nat, w: Word) {
    t < 64 && Schedule(BLOCK, t) == w
  }

  ghost predicate Four(t: nat, a: Word, b: Word, c: Word, d: Word) {
    At(t, a) && At(t + 1, b) && At(t + 2, c) && At(t + 3, d)
  }

  lemma Loaded(t: nat)
    requires t < 16
    ensures At(t, MessageWord(BLOCK, t))
  {}

  lemma Read(i: nat, a: byte, b: byte, c: byte, d: byte)
    requires i < 16 && BLOCK[4 * i] == a && BLOCK[4 * i + 1] == b && BLOCK[4 * i + 2] == c && BLOCK[4 * i + 3] == d
    ensures MessageWord(BLOCK, i) ==
      Word(((a as bv32) << 24) | ((b as bv32) << 16) | ((c as bv32) << 8) | (d as bv32))
  {}

  lemma Expanded(t: nat, w16: Word, w15: Word, w7: Word, w2: Word)
    requires 16 <= t < 64 && At(t - 16, w16) && At(t - 15, w15) && At(t - 7, w7) && At(t - 2, w2)
    ensures At(t, Expand(w16, w15, w7, w2))
  {
    hide Schedule, Expand;
    ScheduleStep(BLOCK, t);
  }

  lemma Words0(t: nat)
    requires t == 0
    ensures Four(t, Word(0x61626380), Word(0x00000000), Word(0x00000000), Word(0x00000000))
  {
    hide At, MessageWord;
    Loaded(0);
    Read(0, 0x61, 0x62, 0x63, 0x80);
    Loaded(1);
    Read(1, 0, 0, 0, 0);
    Loaded(2);
    Read(2, 0, 0, 0, 0);
    Loaded(3);
    Read(3, 0, 0, 0, 0);
  }

  lemma Words1(t: nat)
    requires t == 4
    ensures Four(t, Word(0x00000000), Word(0x00000000), Word(0x00000000), Word(0x00000000))
  {
    hide At, MessageWord;
    Loaded(4);
    Read(4, 0, 0, 0, 0);
    Loaded(5);
    Read(5, 0, 0, 0, 0);
    Loaded(6);
    Read(6, 0, 0, 0, 0);
    Loaded(7);
    Read(7, 0, 0, 0, 0);
  }

  lemma Words2(t: nat)
    requires t == 8
    ensures Four(t, Word(0x00000000), Word(0x00000000), Word(0x00000000), Word(0x00000000))
  {
    hide At, MessageWord;
    Loaded(8);
    Read(8, 0, 0, 0, 0);
    Loaded(9);
    Read(9, 0, 0, 0, 0);
    Loaded(10);
    Read(10, 0, 0, 0, 0);
    Loaded(11);
    Read(11, 0, 0, 0, 0);
  }

  lemma Words3(t: nat)
    requires t == 12
    ensures Four(t, Word(0x00000000), Word(0x00000000), Word(0x00000000), Word(0x00000018))
  {
    hide At, MessageWord;
    Loaded(12);
    Read(12, 0, 0, 0, 0);
    Loaded(13);
    Read(13, 0, 0, 0, 0);
    Loaded(14);
    Read(14, 0, 0, 0, 0);
    Loaded(15);
    Read(15, 0, 0, 0, 24);
  }

  lemma Words4(t: nat)
    requires t == 16
    ensures Four(t, Word(0x61626380), Word(0x000f0000), Word(0x7da86405), Word(0x600003c6))
  {
    hide At;
    Words0(t - 16);
    Words1(t - 12);
    Words2(t - 8);
    Words3(t - 4);
    Expanded(t + 0, Word(0x61626380), Word(0x00000000), Word(0x00000000), Word(0x00000000));
    Expanded(t + 1, Word(0x00000000), Word(0x00000000), Word(0x00000000), Word(0x00000018));
    Expanded(t + 2, Word(0x00000000), Word(0x00000000), Word(0x00000000), Word(0x61626380));
    Expanded(t + 3, Word(0x00000000), Word(0x00000000), Word(0x00000000), Word(0x000f0000));
  }

  lemma Words5(t: nat)
    requires t == 20
    ensures Four(t, Word(0x3e9d7b78), Word(0x0183fc00), Word(0x12dcbfdb), Word(0xe2e2c38e))
  {
    hide At;
    Words1(t - 16);
    Words2(t - 12);
    Words3(t - 8);
    Words4(t - 4);
    Expanded(t + 0, Word(0x00000000), Word(0x00000000), Word(0x00000000), Word(0x7da86405));
    Expanded(t + 1, Word(0x00000000), Word(0x00000000), Word(0x00000000), Word(0x600003c6));
    Expanded(t + 2, Word(0x00000000), Word(0x00000000), Word(0x00000018), Word(0x3e9d7b78));
    Expanded(t + 3, Word(0x00000000), Word(0x00000000), Word(0x61626380), Word(0x0183fc00));
  }

  lemma Words6(t: nat)
    requires t == 24
    ensures Four(t, Word(0xc8215c1a), Word(0xb73679a2), Word(0xe5bc3909), Word(0x32663c5b))
  {
    hide At;
    Words2(t - 16);
    Words3(t - 12);
    Words4(t - 8);
    Words5(t - 4);
    Expanded(t + 0, Word(0x00000000), Word(0x00000000), Word(0x000f0000), Word(0x12dcbfdb));
    Expanded(t + 1, Word(0x00000000), Word(0x00000000), Word(0x7da86405), Word(0xe2e2c38e));
    Expanded(t + 2, Word(0x00000000), Word(0x00000000), Word(0x600003c6), Word(0xc8215c1a));
    Expanded(t + 3, Word(0x00000000), Word(0x00000000), Word(0x3e9d7b78), Word(0xb73679a2));
  }

  lemma Words7(t: nat)
    requires t == 28
    ensures Four(t, Word(0x9d209d67), Word(0xec8726cb), Word(0x702138a4), Word(0xd3b7973b))
  {
    hide At;
    Words3(t - 16);
    Words4(t - 12);
    Words5(t - 8);
    Words6(t - 4);
    Expanded(t + 0, Word(0x00000000), Word(0x00000000), Word(0x0183fc00), Word(0xe5bc3909));
    Expanded(t + 1, Word(0x00000000), Word(0x00000000), Word(0x12dcbfdb), Word(0x32663c5b));
    Expanded(t + 2, Word(0x00000000), Word(0x00000018), Word(0xe2e2c38e), Word(0x9d209d67));
    Expanded(t + 3, Word(0x00000018), Word(0x61626380), Word(0xc8215c1a), Word(0xec8726cb));
  }

  lemma Words8(t: nat)
    requires t == 32
    ensures Four(t, Word(0x93f5997f), Word(0x3b68ba73), Word(0xaff4ffc1), Word(0xf10a5c62))
  {
    hide At;
    Words4(t - 16);
    Words5(t - 12);
    Words6(t - 8);
    Words7(t - 4);
    Expanded(t + 0, Word(0x61626380), Word(0x000f0000), Word(0xb73679a2), Word(0x702138a4));
    Expanded(t + 1, Word(0x000f0000), Word(0x7da86405), Word(0xe5bc3909), Word(0xd3b7973b));
    Expanded(t + 2, Word(0x7da86405), Word(0x600003c6), Word(0x32663c5b), Word(0x93f5997f));
    Expanded(t + 3, Word(0x600003c6), Word(0x3e9d7b78), Word(0x9d209d67), Word(0x3b68ba73));
  }

  lemma Words9(t: nat)
    requires t == 36
    ensures Four(t, Word(0x0a8b3996), Word(0x72af830a), Word(0x9409e33e), Word(0x24641522))
  {
    hide At;
    Words5(t - 16);
    Words6(t - 12);
    Words7(t - 8);
    Words8(t - 4);
    Expanded(t + 0, Word(0x3e9d7b78), Word(0x0183fc00), Word(0xec8726cb), Word(0xaff4ffc1));
    Expanded(t + 1, Word(0x0183fc00), Word(0x12dcbfdb), Word(0x702138a4), Word(0xf10a5c62));
    Expanded(t + 2, Word(0x12dcbfdb), Word(0xe2e2c38e), Word(0xd3b7973b), Word(0x0a8b3996));
    Expanded(t + 3, Word(0xe2e2c38e), Word(0xc8215c1a), Word(0x93f5997f), Word(0x72af830a));
  }

  lemma Words10(t: nat)
    requires t == 40
    ensures Four(t, Word(0x9f47bf94), Word(0xf0a64f5a), Word(0x3e246a79), Word(0x27333ba3))
  {
    hide At;
    Words6(t - 16);
    Words7(t - 12);
    Words8(t - 8);
    Words9(t - 4);
    Expanded(t + 0, Word(0xc8215c1a), Word(0xb73679a2), Word(0x3b68ba73), Word(0x9409e33e));
    Expanded(t + 1, Word(0xb73679a2), Word(0xe5bc3909), Word(0xaff4ffc1), Word(0x24641522));
    Expanded(t + 2, Word(0xe5bc3909), Word(0x32663c5b), Word(0xf10a5c62), Word(0x9f47bf94));
    Expanded(t + 3, Word(0x32663c5b), Word(0x9d209d67), Word(0x0a8b3996), Word(0xf0a64f5a));
  }

  lemma Words11(t: nat)
    requires t == 44
    ensures Four(t, Word(0x0c4763f2), Word(0x840abf27), Word(0x7a290d5d), Word(0x065c43da))
  {
    hide At;
    Words7(t - 16);
    Words8(t - 12);
    Words9(t - 8);
    Words10(t - 4);
    Expanded(t + 0, Word(0x9d209d67), Word(0xec8726cb), Word(0x72af830a), Word(0x3e246a79));
    Expanded(t + 1, Word(0xec8726cb), Word(0x702138a4), Word(0x9409e33e), Word(0x27333ba3));
    Expanded(t + 2, Word(0x702138a4), Word(0xd3b7973b), Word(0x24641522), Word(0x0c4763f2));
    Expanded(t + 3, Word(0xd3b7973b), Word(0x93f5997f), Word(0x9f47bf94), Word(0x840abf27));
  }

  lemma Words12(t: nat)
    requires t == 48
    ensures Four(t, Word(0xfb3e89cb), Word(0xcc7617db), Word(0xb9e66c34), Word(0xa9993667))
  {
    hide At;
    Words8(t - 16);
    Words9(t - 12);
    Words10(t - 8);
    Words11(t - 4);
    Expanded(t + 0, Word(0x93f5997f), Word(0x3b68ba73), Word(0xf0a64f5a), Word(0x7a290d5d));
    Expanded(t + 1, Word(0x3b68ba73), Word(0xaff4ffc1), Word(0x3e246a79), Word(0x065c43da));
    Expanded(t + 2, Word(0xaff4ffc1), Word(0xf10a5c62), Word(0x27333ba3), Word(0xfb3e89cb));
    Expanded(t + 3, Word(0xf10a5c62), Word(0x0a8b3996), Word(0x0c4763f2), Word(0xcc7617db));
  }

  lemma Words13(t: nat)
    requires t == 52
    ensures Four(t, Word(0x84badedd), Word(0xc21462bc), Word(0x1487472c), Word(0xb20f7a99))
  {
    hide At;
    Words9(t - 16);
    Words10(t - 12);
    Words11(t - 8);
    Words12(t - 4);
    Expanded(t + 0, Word(0x0a8b3996), Word(0x72af830a), Word(0x840abf27), Word(0xb9e66c34));
    Expanded(t + 1, Word(0x72af830a), Word(0x9409e33e), Word(0x7a290d5d), Word(0xa9993667));
    Expanded(t + 2, Word(0x9409e33e), Word(0x24641522), Word(0x065c43da), Word(0x84badedd));
    Expanded(t + 3, Word(0x24641522), Word(0x9f47bf94), Word(0xfb3e89cb), Word(0xc21462bc));
  }

  lemma Words14(t: nat)
    requires t == 56
    ensures Four(t, Word(0xef57b9cd), Word(0xebe6b238), Word(0x9fe3095e), Word(0x78bc8d4b))
  {
    hide At;
    Words10(t - 16);
    Words11(t - 12);
    Words12(t - 8);
    Words13(t - 4);
    Expanded(t + 0, Word(0x9f47bf94), Word(0xf0a64f5a), Word(0xcc7617db), Word(0x1487472c));
    Expanded(t + 1, Word(0xf0a64f5a), Word(0x3e246a79), Word(0xb9e66c34), Word(0xb20f7a99));
    Expanded(t + 2, Word(0x3e246a79), Word(0x27333ba3), Word(0xa9993667), Word(0xef57b9cd));
    Expanded(t + 3, Word(0x27333ba3), Word(0x0c4763f2), Word(0x84badedd), Word(0xebe6b238));
  }

  lemma Words15(t: nat)
    requires t == 60
    ensures Four(t, Word(0xa43fcf15), Word(0x668b2ff8), Word(0xeeaba2cc), Word(0x12b1edeb))
  {
    hide At;
    Words11(t - 16);
    Words12(t - 12);
    Words13(t - 8);
    Words14(t - 4);
    Expanded(t + 0, Word(0x0c4763f2), Word(0x840abf27), Word(0xc21462bc), Word(0x9fe3095e));
    Expanded(t + 1, Word(0x840abf27), Word(0x7a290d5d), Word(0x1487472c), Word(0x78bc8d4b));
    Expanded(t + 2, Word(0x7a290d5d), Word(0x065c43da), Word(0xb20f7a99), Word(0xa43fcf15));
    Expanded(t + 3, Word(0x065c43da), Word(0xfb3e89cb), Word(0xef57b9cd), Word(0x668b2ff8));
  }

  // ----- The rounds -----

  function Start(): Vars {
    Vars(IV()[0], IV()[1], IV()[2], IV()[3], IV()[4], IV()[5], IV()[6], IV()[7])
  }

  ghost predicate After(t: nat, v: Vars) {
    t <= 64 && Rounds(Start(), BLOCK, t) == v
  }

  lemma OneRound(t: nat, v: Vars, k: Word, w: Word)
    requires t < 64 && After(t, v) && At(t, w) && RoundConstant(t) == k
    ensures After(t + 1, Round(v, k, w))
  {
    hide Round, RoundConstant, Schedule;
  }

  lemma NoRound(t: nat)
    requires t == 0
    ensures After(t, Start())
  {}

  lemma Rounds0(t: nat)
    requires t == 4
    ensures After(t, Vars(Word(0xd550f666), Word(0xc8c347a7), Word(0x5a6ad9ad), Word(0x5d6aebcd),
           Word(0x24e00850), Word(0xf92939eb), Word(0x78ce7989), Word(0xfa2a4622)))
  {
    hide After, At, RoundConstant;
    NoRound(t - 4);
    Words0(t - 4);
    Constants0();
    OneRound(t - 4, Vars(Word(0x6a09e667), Word(0xbb67ae85), Word(0x3c6ef372), Word(0xa54ff53a),
                 Word(0x510e527f), Word(0x9b05688c), Word(0x1f83d9ab), Word(0x5be0cd19)), Word(0x428a2f98), Word(0x61626380));
    OneRound(t - 3, Vars(Word(0x5d6aebcd), Word(0x6a09e667), Word(0xbb67ae85), Word(0x3c6ef372),
                 Word(0xfa2a4622), Word(0x510e527f), Word(0x9b05688c), Word(0x1f83d9ab)), Word(0x71374491), Word(0x00000000));
    OneRound(t - 2, Vars(Word(0x5a6ad9ad), Word(0x5d6aebcd), Word(0x6a09e667), Word(0xbb67ae85),
                 Word(0x78ce7989), Word(0xfa2a4622), Word(0x510e527f), Word(0x9b05688c)), Word(0xb5c0fbcf), Word(0x00000000));
    OneRound(t - 1, Vars(Word(0xc8c347a7), Word(0x5a6ad9ad), Word(0x5d6aebcd), Word(0x6a09e667),
                 Word(0xf92939eb), Word(0x78ce7989), Word(0xfa2a4622), Word(0x510e527f)), Word(0xe9b5dba5), Word(0x00000000));
  }

  lemma Constants0()
    ensures RoundConstant(0) == Word(0x428a2f98) && RoundConstant(1) == Word(0x71374491)
    ensures RoundConstant(2) == Word(0xb5c0fbcf) && RoundConstant(3) == Word(0xe9b5dba5)
  {}

  lemma Rounds1(t: nat)
    requires t == 8
    ensures After(t, Vars(Word(0x85a07b5f), Word(0xe5030380), Word(0x2b4209f5), Word(0x04409a6a),
           Word(0x0c657a79), Word(0x9b27a401), Word(0x714260ad), Word(0x43ada245)))
  {
    hide After, At, RoundConstant;
    Rounds0(t - 4);
    Words1(t - 4);
    Constants1();
    OneRound(t - 4, Vars(Word(0xd550f666), Word(0xc8c347a7), Word(0x5a6ad9ad), Word(0x5d6aebcd),
                 Word(0x24e00850), Word(0xf92939eb), Word(0x78ce7989), Word(0xfa2a4622)), Word(0x3956c25b), Word(0x00000000));
    OneRound(t - 3, Vars(Word(0x04409a6a), Word(0xd550f666), Word(0xc8c347a7), Word(0x5a6ad9ad),
                 Word(0x43ada245), Word(0x24e00850), Word(0xf92939eb), Word(0x78ce7989)), Word(0x59f111f1), Word(0x00000000));
    OneRound(t - 2, Vars(Word(0x2b4209f5), Word(0x04409a6a), Word(0xd550f666), Word(0xc8c347a7),
                 Word(0x714260ad), Word(0x43ada245), Word(0x24e00850), Word(0xf92939eb)), Word(0x923f82a4), Word(0x00000000));
    OneRound(t - 1, Vars(Word(0xe5030380), Word(0x2b4209f5), Word(0x04409a6a), Word(0xd550f666),
                 Word(0x9b27a401), Word(0x714260ad), Word(0x43ada245), Word(0x24e00850)), Word(0xab1c5ed5), Word(0x00000000));
  }

  lemma Constants1()
    ensures RoundConstant(4) == Word(0x3956c25b) && RoundConstant(5) == Word(0x59f111f1)
    ensures RoundConstant(6) == Word(0x923f82a4) && RoundConstant(7) == Word(0xab1c5ed5)
  {}

  lemma Rounds2(t: nat)
    requires t == 12
    ensures After(t, Vars(Word(0xf71fc5a9), Word(0x4798a3f4), Word(0x8c87346b), Word(0x8e04ecb9),
           Word(0x816fd6e9), Word(0x436b23e8), Word(0x1cc92596), Word(0x32ca2d8c)))
  {
    hide After, At, RoundConstant;
    Rounds1(t - 4);
    Words2(t - 4);
    Constants2();
    OneRound(t - 4, Vars(Word(0x85a07b5f), Word(0xe5030380), Word(0x2b4209f5), Word(0x04409a6a),
                 Word(0x0c657a79), Word(0x9b27a401), Word(0x714260ad), Word(0x43ada245)), Word(0xd807aa98), Word(0x00000000));
    OneRound(t - 3, Vars(Word(0x8e04ecb9), Word(0x85a07b5f), Word(0xe5030380), Word(0x2b4209f5),
                 Word(0x32ca2d8c), Word(0x0c657a79), Word(0x9b27a401), Word(0x714260ad)), Word(0x12835b01), Word(0x00000000));
    OneRound(t - 2, Vars(Word(0x8c87346b), Word(0x8e04ecb9), Word(0x85a07b5f), Word(0xe5030380),
                 Word(0x1cc92596), Word(0x32ca2d8c), Word(0x0c657a79), Word(0x9b27a401)), Word(0x243185be), Word(0x00000000));
    OneRound(t - 1, Vars(Word(0x4798a3f4), Word(0x8c87346b), Word(0x8e04ecb9), Word(0x85a07b5f),
                 Word(0x436b23e8), Word(0x1cc92596), Word(0x32ca2d8c), Word(0x0c657a79)), Word(0x550c7dc3), Word(0x00000000));
  }

  lemma Constants2()
    ensures RoundConstant(8) == Word(0xd807aa98) && RoundConstant(9) == Word(0x12835b01)
    ensures RoundConstant(10) == Word(0x243185be) && RoundConstant(11) == Word(0x550c7dc3)
  {}

  lemma Rounds3(t: nat)
    requires t == 16
    ensures After(t, Vars(Word(0xb0fa238e), Word(0xc0645fde), Word(0xd932eb16), Word(0x87912990),
           Word(0x07590dcd), Word(0x0b92f20c), Word(0x745a48de), Word(0x1e578218)))
  {
    hide After, At, RoundConstant;
    Rounds2(t - 4);
    Words3(t - 4);
    Constants3();
    OneRound(t - 4, Vars(Word(0xf71fc5a9), Word(0x4798a3f4), Word(0x8c87346b), Word(0x8e04ecb9),
                 Word(0x816fd6e9), Word(0x436b23e8), Word(0x1cc92596), Word(0x32ca2d8c)), Word(0x72be5d74), Word(0x00000000));
    OneRound(t - 3, Vars(Word(0x87912990), Word(0xf71fc5a9), Word(0x4798a3f4), Word(0x8c87346b),
                 Word(0x1e578218), Word(0x816fd6e9), Word(0x436b23e8), Word(0x1cc92596)), Word(0x80deb1fe), Word(0x00000000));
    OneRound(t - 2, Vars(Word(0xd932eb16), Word(0x87912990), Word(0xf71fc5a9), Word(0x4798a3f4),
                 Word(0x745a48de), Word(0x1e578218), Word(0x816fd6e9), Word(0x436b23e8)), Word(0x9bdc06a7), Word(0x00000000));
    OneRound(t - 1, Vars(Word(0xc0645fde), Word(0xd932eb16), Word(0x87912990), Word(0xf71fc5a9),
                 Word(0x0b92f20c), Word(0x745a48de), Word(0x1e578218), Word(0x816fd6e9)), Word(0xc19bf174), Word(0x00000018));
  }

  lemma Constants3()
    ensures RoundConstant(12) == Word(0x72be5d74) && RoundConstant(13) == Word(0x80deb1fe)
    ensures RoundConstant(14) == Word(0x9bdc06a7) && RoundConstant(15) == Word(0xc19bf174)
  {}

  lemma Rounds4(t: nat)
    requires t == 20
    ensures After(t, Vars(Word(0xe1f20c33), Word(0xfe777bbf), Word(0xc2fbd9d1), Word(0x21da9a9b),
           Word(0xb0638179), Word(0xcc899961), Word(0x846ee454), Word(0x8034229c)))
  {
    hide After, At, RoundConstant;
    Rounds3(t - 4);
    Words4(t - 4);
    Constants4();
    OneRound(t - 4, Vars(Word(0xb0fa238e), Word(0xc0645fde), Word(0xd932eb16), Word(0x87912990),
                 Word(0x07590dcd), Word(0x0b92f20c), Word(0x745a48de), Word(0x1e578218)), Word(0xe49b69c1), Word(0x61626380));
    OneRound(t - 3, Vars(Word(0x21da9a9b), Word(0xb0fa238e), Word(0xc0645fde), Word(0xd932eb16),
                 Word(0x8034229c), Word(0x07590dcd), Word(0x0b92f20c), Word(0x745a48de)), Word(0xefbe4786), Word(0x000f0000));
    OneRound(t - 2, Vars(Word(0xc2fbd9d1), Word(0x21da9a9b), Word(0xb0fa238e), Word(0xc0645fde),
                 Word(0x846ee454), Word(0x8034229c), Word(0x07590dcd), Word(0x0b92f20c)), Word(0x0fc19dc6), Word(0x7da86405));
    OneRound(t - 1, Vars(Word(0xfe777bbf), Word(0xc2fbd9d1), Word(0x21da9a9b), Word(0xb0fa238e),
                 Word(0xcc899961), Word(0x846ee454), Word(0x8034229c), Word(0x07590dcd)), Word(0x240ca1cc), Word(0x600003c6));
  }

  lemma Constants4()
    ensures RoundConstant(16) == Word(0xe49b69c1) && RoundConstant(17) == Word(0xefbe4786)
    ensures RoundConstant(18) == Word(0x0fc19dc6) && RoundConstant(19) == Word(0x240ca1cc)
  {}

  lemma Rounds5(t: nat)
    requires t == 24
    ensures After(t, Vars(Word(0xc5d53d8d), Word(0xa7a3623f), Word(0xc2606d6d), Word(0x9dc68b63),
           Word(0xaa47c347), Word(0x49f5114a), Word(0xe1257970), Word(0x8ada8930)))
  {
    hide After, At, RoundConstant;
    Rounds4(t - 4);
    Words5(t - 4);
    Constants5();
    OneRound(t - 4, Vars(Word(0xe1f20c33), Word(0xfe777bbf), Word(0xc2fbd9d1), Word(0x21da9a9b),
                 Word(0xb0638179), Word(0xcc899961), Word(0x846ee454), Word(0x8034229c)), Word(0x2de92c6f), Word(0x3e9d7b78));
    OneRound(t - 3, Vars(Word(0x9dc68b63), Word(0xe1f20c33), Word(0xfe777bbf), Word(0xc2fbd9d1),
                 Word(0x8ada8930), Word(0xb0638179), Word(0xcc899961), Word(0x846ee454)), Word(0x4a7484aa), Word(0x0183fc00));
    OneRound(t - 2, Vars(Word(0xc2606d6d), Word(0x9dc68b63), Word(0xe1f20c33), Word(0xfe777bbf),
                 Word(0xe1257970), Word(0x8ada8930), Word(0xb0638179), Word(0xcc899961)), Word(0x5cb0a9dc), Word(0x12dcbfdb));
    OneRound(t - 1, Vars(Word(0xa7a3623f), Word(0xc2606d6d), Word(0x9dc68b63), Word(0xe1f20c33),
                 Word(0x49f5114a), Word(0xe1257970), Word(0x8ada8930), Word(0xb0638179)), Word(0x76f988da), Word(0xe2e2c38e));
  }

  lemma Constants5()
    ensures RoundConstant(20) == Word(0x2de92c6f) && RoundConstant(21) == Word(0x4a7484aa)
    ensures RoundConstant(22) == Word(0x5cb0a9dc) && RoundConstant(23) == Word(0x76f988da)
  {}

  lemma Rounds6(t: nat)
    requires t == 28
    ensures After(t, Vars(Word(0x77d37528), Word(0xb62ec4bc), Word(0xcde8037d), Word(0x1c2c2838),
           Word(0xedffbff8), Word(0xc74c6516), Word(0x14383d8e), Word(0x2823ef91)))
  {
    hide After, At, RoundConstant;
    Rounds5(t - 4);
    Words6(t - 4);
    Constants6();
    OneRound(t - 4, Vars(Word(0xc5d53d8d), Word(0xa7a3623f), Word(0xc2606d6d), Word(0x9dc68b63),
                 Word(0xaa47c347), Word(0x49f5114a), Word(0xe1257970), Word(0x8ada8930)), Word(0x983e5152), Word(0xc8215c1a));
    OneRound(t - 3, Vars(Word(0x1c2c2838), Word(0xc5d53d8d), Word(0xa7a3623f), Word(0xc2606d6d),
                 Word(0x2823ef91), Word(0xaa47c347), Word(0x49f5114a), Word(0xe1257970)), Word(0xa831c66d), Word(0xb73679a2));
    OneRound(t - 2, Vars(Word(0xcde8037d), Word(0x1c2c2838), Word(0xc5d53d8d), Word(0xa7a3623f),
                 Word(0x14383d8e), Word(0x2823ef91), Word(0xaa47c347), Word(0x49f5114a)), Word(0xb00327c8), Word(0xe5bc3909));
    OneRound(t - 1, Vars(Word(0xb62ec4bc), Word(0xcde8037d), Word(0x1c2c2838), Word(0xc5d53d8d),
                 Word(0xc74c6516), Word(0x14383d8e), Word(0x2823ef91), Word(0xaa47c347)), Word(0xbf597fc7), Word(0x32663c5b));
  }

  lemma Constants6()
    ensures RoundConstant(24) == Word(0x983e5152) && RoundConstant(25) == Word(0xa831c66d)
    ensures RoundConstant(26) == Word(0xb00327c8) && RoundConstant(27) == Word(0xbf597fc7)
  {}

  lemma Rounds7(t: nat)
    requires t == 32
    ensures After(t, Vars(Word(0x73b33bf5), Word(0xea992a22), Word(0xa0060b30), Word(0x363482c9),
           Word(0xba591112), Word(0x0109ab3a), Word(0xade79437), Word(0x6112a3b7)))
  {
    hide After, At, RoundConstant;
    Rounds6(t - 4);
    Words7(t - 4);
    Constants7();
    OneRound(t - 4, Vars(Word(0x77d37528), Word(0xb62ec4bc), Word(0xcde8037d), Word(0x1c2c2838),
                 Word(0xedffbff8), Word(0xc74c6516), Word(0x14383d8e), Word(0x2823ef91)), Word(0xc6e00bf3), Word(0x9d209d67));
    OneRound(t - 3, Vars(Word(0x363482c9), Word(0x77d37528), Word(0xb62ec4bc), Word(0xcde8037d),
                 Word(0x6112a3b7), Word(0xedffbff8), Word(0xc74c6516), Word(0x14383d8e)), Word(0xd5a79147), Word(0xec8726cb));
    OneRound(t - 2, Vars(Word(0xa0060b30), Word(0x363482c9), Word(0x77d37528), Word(0xb62ec4bc),
                 Word(0xade79437), Word(0x6112a3b7), Word(0xedffbff8), Word(0xc74c6516)), Word(0x06ca6351), Word(0x702138a4));
    OneRound(t - 1, Vars(Word(0xea992a22), Word(0xa0060b30), Word(0x363482c9), Word(0x77d37528),
                 Word(0x0109ab3a), Word(0xade79437), Word(0x6112a3b7), Word(0xedffbff8)), Word(0x14292967), Word(0xd3b7973b));
  }

  lemma Constants7()
    ensures RoundConstant(28) == Word(0xc6e00bf3) && RoundConstant(29) == Word(0xd5a79147)
    ensures RoundConstant(30) == Word(0x06ca6351) && RoundConstant(31) == Word(0x14292967)
  {}

  lemma Rounds8(t: nat)
    requires t == 36
    ensures After(t, Vars(Word(0x65a0cfe4), Word(0xa9a7738c), Word(0xfe604df5), Word(0x98e12507),
           Word(0xf4b002d6), Word(0x085f3833), Word(0x59249dd3), Word(0x9cd9f5f6)))
  {
    hide After, At, RoundConstant;
    Rounds7(t - 4);
    Words8(t - 4);
    Constants8();
    OneRound(t - 4, Vars(Word(0x73b33bf5), Word(0xea992a22), Word(0xa0060b30), Word(0x363482c9),
                 Word(0xba591112), Word(0x0109ab3a), Word(0xade79437), Word(0x6112a3b7)), Word(0x27b70a85), Word(0x93f5997f));
    OneRound(t - 3, Vars(Word(0x98e12507), Word(0x73b33bf5), Word(0xea992a22), Word(0xa0060b30),
                 Word(0x9cd9f5f6), Word(0xba591112), Word(0x0109ab3a), Word(0xade79437)), Word(0x2e1b2138), Word(0x3b68ba73));
    OneRound(t - 2, Vars(Word(0xfe604df5), Word(0x98e12507), Word(0x73b33bf5), Word(0xea992a22),
                 Word(0x59249dd3), Word(0x9cd9f5f6), Word(0xba591112), Word(0x0109ab3a)), Word(0x4d2c6dfc), Word(0xaff4ffc1));
    OneRound(t - 1, Vars(Word(0xa9a7738c), Word(0xfe604df5), Word(0x98e12507), Word(0x73b33bf5),
                 Word(0x085f3833), Word(0x59249dd3), Word(0x9cd9f5f6), Word(0xba591112)), Word(0x53380d13), Word(0xf10a5c62));
  }

  lemma Constants8()
    ensures RoundConstant(32) == Word(0x27b70a85) && RoundConstant(33) == Word(0x2e1b2138)
    ensures RoundConstant(34) == Word(0x4d2c6dfc) && RoundConstant(35) == Word(0x53380d13)
  {}

  lemma Rounds9(t: nat)
    requires t == 40
    ensures After(t, Vars(Word(0x79ea687a), Word(0x6dc57a8a), Word(0x34df1604), Word(0x41a65cb1),
           Word(0x1efbc0a0), Word(0xf0781bc8), Word(0xa507a53d), Word(0x0772a26b)))
  {
    hide After, At, RoundConstant;
    Rounds8(t - 4);
    Words9(t - 4);
    Constants9();
    OneRound(t - 4, Vars(Word(0x65a0cfe4), Word(0xa9a7738c), Word(0xfe604df5), Word(0x98e12507),
                 Word(0xf4b002d6), Word(0x085f3833), Word(0x59249dd3), Word(0x9cd9f5f6)), Word(0x650a7354), Word(0x0a8b3996));
    OneRound(t - 3, Vars(Word(0x41a65cb1), Word(0x65a0cfe4), Word(0xa9a7738c), Word(0xfe604df5),
                 Word(0x0772a26b), Word(0xf4b002d6), Word(0x085f3833), Word(0x59249dd3)), Word(0x766a0abb), Word(0x72af830a));
    OneRound(t - 2, Vars(Word(0x34df1604), Word(0x41a65cb1), Word(0x65a0cfe4), Word(0xa9a7738c),
                 Word(0xa507a53d), Word(0x0772a26b), Word(0xf4b002d6), Word(0x085f3833)), Word(0x81c2c92e), Word(0x9409e33e));
    OneRound(t - 1, Vars(Word(0x6dc57a8a), Word(0x34df1604), Word(0x41a65cb1), Word(0x65a0cfe4),
                 Word(0xf0781bc8), Word(0xa507a53d), Word(0x0772a26b), Word(0xf4b002d6)), Word(0x92722c85), Word(0x24641522));
  }

  lemma Constants9()
    ensures RoundConstant(36) == Word(0x650a7354) && RoundConstant(37) == Word(0x766a0abb)
    ensures RoundConstant(38) == Word(0x81c2c92e) && RoundConstant(39) == Word(0x92722c85)
  {}

  lemma Rounds10(t: nat)
    requires t == 44
    ensures After(t, Vars(Word(0x9d4baf93), Word(0x17aa0dfe), Word(0xdf46652f), Word(0xd6670766),
           Word(0xfda24c2e), Word(0xdecd4715), Word(0x838b2711), Word(0x26352d63)))
  {
    hide After, At, RoundConstant;
    Rounds9(t - 4);
    Words10(t - 4);
    Constants10();
    OneRound(t - 4, Vars(Word(0x79ea687a), Word(0x6dc57a8a), Word(0x34df1604), Word(0x41a65cb1),
                 Word(0x1efbc0a0), Word(0xf0781bc8), Word(0xa507a53d), Word(0x0772a26b)), Word(0xa2bfe8a1), Word(0x9f47bf94));
    OneRound(t - 3, Vars(Word(0xd6670766), Word(0x79ea687a), Word(0x6dc57a8a), Word(0x34df1604),
                 Word(0x26352d63), Word(0x1efbc0a0), Word(0xf0781bc8), Word(0xa507a53d)), Word(0xa81a664b), Word(0xf0a64f5a));
    OneRound(t - 2, Vars(Word(0xdf46652f), Word(0xd6670766), Word(0x79ea687a), Word(0x6dc57a8a),
                 Word(0x838b2711), Word(0x26352d63), Word(0x1efbc0a0), Word(0xf0781bc8)), Word(0xc24b8b70), Word(0x3e246a79));
    OneRound(t - 1, Vars(Word(0x17aa0dfe), Word(0xdf46652f), Word(0xd6670766), Word(0x79ea687a),
                 Word(0xdecd4715), Word(0x838b2711), Word(0x26352d63), Word(0x1efbc0a0)), Word(0xc76c51a3), Word(0x27333ba3));
  }

  lemma Constants10()
    ensures RoundConstant(40) == Word(0xa2bfe8a1) && RoundConstant(41) == Word(0xa81a664b)
    ensures RoundConstant(42) == Word(0xc24b8b70) && RoundConstant(43) == Word(0xc76c51a3)
  {}

  lemma Rounds11(t: nat)
    requires t == 48
    ensures After(t, Vars(Word(0x4172328d), Word(0xa14c14b0), Word(0x72ab4b91), Word(0x26628815),
           Word(0xfecf0bc6), Word(0xd57b94a9), Word(0xb7755da1), Word(0xa80f11f0)))
  {
    hide After, At, RoundConstant;
    Rounds10(t - 4);
    Words11(t - 4);
    Constants11();
    OneRound(t - 4, Vars(Word(0x9d4baf93), Word(0x17aa0dfe), Word(0xdf46652f), Word(0xd6670766),
                 Word(0xfda24c2e), Word(0xdecd4715), Word(0x838b2711), Word(0x26352d63)), Word(0xd192e819), Word(0x0c4763f2));
    OneRound(t - 3, Vars(Word(0x26628815), Word(0x9d4baf93), Word(0x17aa0dfe), Word(0xdf46652f),
                 Word(0xa80f11f0), Word(0xfda24c2e), Word(0xdecd4715), Word(0x838b2711)), Word(0xd6990624), Word(0x840abf27));
    OneRound(t - 2, Vars(Word(0x72ab4b91), Word(0x26628815), Word(0x9d4baf93), Word(0x17aa0dfe),
                 Word(0xb7755da1), Word(0xa80f11f0), Word(0xfda24c2e), Word(0xdecd4715)), Word(0xf40e3585), Word(0x7a290d5d));
    OneRound(t - 1, Vars(Word(0xa14c14b0), Word(0x72ab4b91), Word(0x26628815), Word(0x9d4baf93),
                 Word(0xd57b94a9), Word(0xb7755da1), Word(0xa80f11f0), Word(0xfda24c2e)), Word(0x106aa070), Word(0x065c43da));
  }

  lemma Constants11()
    ensures RoundConstant(44) == Word(0xd192e819) && RoundConstant(45) == Word(0xd6990624)
    ensures RoundConstant(46) == Word(0xf40e3585) && RoundConstant(47) == Word(0x106aa070)
  {}

  lemma Rounds12(t: nat)
    requires t == 52
    ensures After(t, Vars(Word(0x886e7a22), Word(0x7a0508a1), Word(0xf11bfaa8), Word(0x05757ceb),
           Word(0x49231c1e), Word(0x52f1ccf7), Word(0x6e5c390c), Word(0xbd714038)))
  {
    hide After, At, RoundConstant;
    Rounds11(t - 4);
    Words12(t - 4);
    Constants12();
    OneRound(t - 4, Vars(Word(0x4172328d), Word(0xa14c14b0), Word(0x72ab4b91), Word(0x26628815),
                 Word(0xfecf0bc6), Word(0xd57b94a9), Word(0xb7755da1), Word(0xa80f11f0)), Word(0x19a4c116), Word(0xfb3e89cb));
    OneRound(t - 3, Vars(Word(0x05757ceb), Word(0x4172328d), Word(0xa14c14b0), Word(0x72ab4b91),
                 Word(0xbd714038), Word(0xfecf0bc6), Word(0xd57b94a9), Word(0xb7755da1)), Word(0x1e376c08), Word(0xcc7617db));
    OneRound(t - 2, Vars(Word(0xf11bfaa8), Word(0x05757ceb), Word(0x4172328d), Word(0xa14c14b0),
                 Word(0x6e5c390c), Word(0xbd714038), Word(0xfecf0bc6), Word(0xd57b94a9)), Word(0x2748774c), Word(0xb9e66c34));
    OneRound(t - 1, Vars(Word(0x7a0508a1), Word(0xf11bfaa8), Word(0x05757ceb), Word(0x4172328d),
                 Word(0x52f1ccf7), Word(0x6e5c390c), Word(0xbd714038), Word(0xfecf0bc6)), Word(0x34b0bcb5), Word(0xa9993667));
  }

  lemma Constants12()
    ensures RoundConstant(48) == Word(0x19a4c116) && RoundConstant(49) == Word(0x1e376c08)
    ensures RoundConstant(50) == Word(0x2748774c) && RoundConstant(51) == Word(0x34b0bcb5)
  {}

  lemma Rounds13(t: nat)
    requires t == 56
    ensures After(t, Vars(Word(0x38cc9913), Word(0x3ec45cdb), Word(0xf5702fdb), Word(0x101fd28f),
           Word(0x54cb266b), Word(0xe50e1b4f), Word(0x9f4787c3), Word(0x529e7d00)))
  {
    hide After, At, RoundConstant;
    Rounds12(t - 4);
    Words13(t - 4);
    Constants13();
    OneRound(t - 4, Vars(Word(0x886e7a22), Word(0x7a0508a1), Word(0xf11bfaa8), Word(0x05757ceb),
                 Word(0x49231c1e), Word(0x52f1ccf7), Word(0x6e5c390c), Word(0xbd714038)), Word(0x391c0cb3), Word(0x84badedd));
    OneRound(t - 3, Vars(Word(0x101fd28f), Word(0x886e7a22), Word(0x7a0508a1), Word(0xf11bfaa8),
                 Word(0x529e7d00), Word(0x49231c1e), Word(0x52f1ccf7), Word(0x6e5c390c)), Word(0x4ed8aa4a), Word(0xc21462bc));
    OneRound(t - 2, Vars(Word(0xf5702fdb), Word(0x101fd28f), Word(0x886e7a22), Word(0x7a0508a1),
                 Word(0x9f4787c3), Word(0x529e7d00), Word(0x49231c1e), Word(0x52f1ccf7)), Word(0x5b9cca4f), Word(0x1487472c));
    OneRound(t - 1, Vars(Word(0x3ec45cdb), Word(0xf5702fdb), Word(0x101fd28f), Word(0x886e7a22),
                 Word(0xe50e1b4f), Word(0x9f4787c3), Word(0x529e7d00), Word(0x49231c1e)), Word(0x682e6ff3), Word(0xb20f7a99));
  }

  lemma Constants13()
    ensures RoundConstant(52) == Word(0x391c0cb3) && RoundConstant(53) == Word(0x4ed8aa4a)
    ensures RoundConstant(54) == Word(0x5b9cca4f) && RoundConstant(55) == Word(0x682e6ff3)
  {}

  lemma Rounds14(t: nat)
    requires t == 60
    ensures After(t, Vars(Word(0xb6ae8fff), Word(0xffb70472), Word(0xc062d46f), Word(0xfcd1887b),
           Word(0xb21bad3d), Word(0x6d83bfc6), Word(0x7e44008e), Word(0x9b5e906c)))
  {
    hide After, At, RoundConstant;
    Rounds13(t - 4);
    Words14(t - 4);
    Constants14();
    OneRound(t - 4, Vars(Word(0x38cc9913), Word(0x3ec45cdb), Word(0xf5702fdb), Word(0x101fd28f),
                 Word(0x54cb266b), Word(0xe50e1b4f), Word(0x9f4787c3), Word(0x529e7d00)), Word(0x748f82ee), Word(0xef57b9cd));
    OneRound(t - 3, Vars(Word(0xfcd1887b), Word(0x38cc9913), Word(0x3ec45cdb), Word(0xf5702fdb),
                 Word(0x9b5e906c), Word(0x54cb266b), Word(0xe50e1b4f), Word(0x9f4787c3)), Word(0x78a5636f), Word(0xebe6b238));
    OneRound(t - 2, Vars(Word(0xc062d46f), Word(0xfcd1887b), Word(0x38cc9913), Word(0x3ec45cdb),
                 Word(0x7e44008e), Word(0x9b5e906c), Word(0x54cb266b), Word(0xe50e1b4f)), Word(0x84c87814), Word(0x9fe3095e));
    OneRound(t - 1, Vars(Word(0xffb70472), Word(0xc062d46f), Word(0xfcd1887b), Word(0x38cc9913),
                 Word(0x6d83bfc6), Word(0x7e44008e), Word(0x9b5e906c), Word(0x54cb266b)), Word(0x8cc70208), Word(0x78bc8d4b));
  }

  lemma Constants14()
    ensures RoundConstant(56) == Word(0x748f82ee) && RoundConstant(57) == Word(0x78a5636f)
    ensures RoundConstant(58) == Word(0x84c87814) && RoundConstant(59) == Word(0x8cc70208)
  {}

  lemma Rounds15(t: nat)
    requires t == 64
    ensures After(t, Vars(Word(0x506e3058), Word(0xd39a2165), Word(0x04d24d6c), Word(0xb85e2ce9),
           Word(0x5ef50f24), Word(0xfb121210), Word(0x948d25b6), Word(0x961f4894)))
  {
    hide After, At, RoundConstant;
    Rounds14(t - 4);
    Words15(t - 4);
    Constants15();
    OneRound(t - 4, Vars(Word(0xb6ae8fff), Word(0xffb70472), Word(0xc062d46f), Word(0xfcd1887b),
                 Word(0xb21bad3d), Word(0x6d83bfc6), Word(0x7e44008e), Word(0x9b5e906c)), Word(0x90befffa), Word(0xa43fcf15));
    OneRound(t - 3, Vars(Word(0xb85e2ce9), Word(0xb6ae8fff), Word(0xffb70472), Word(0xc062d46f),
                 Word(0x961f4894), Word(0xb21bad3d), Word(0x6d83bfc6), Word(0x7e44008e)), Word(0xa4506ceb), Word(0x668b2ff8));
    OneRound(t - 2, Vars(Word(0x04d24d6c), Word(0xb85e2ce9), Word(0xb6ae8fff), Word(0xffb70472),
                 Word(0x948d25b6), Word(0x961f4894), Word(0xb21bad3d), Word(0x6d83bfc6)), Word(0xbef9a3f7), Word(0xeeaba2cc));
    OneRound(t - 1, Vars(Word(0xd39a2165), Word(0x04d24d6c), Word(0xb85e2ce9), Word(0xb6ae8fff),
                 Word(0xfb121210), Word(0x948d25b6), Word(0x961f4894), Word(0xb21bad3d)), Word(0xc67178f2), Word(0x12b1edeb));
  }

  lemma Constants15()
    ensures RoundConstant(60) == Word(0x90befffa) && RoundConstant(61) == Word(0xa4506ceb)
    ensures RoundConstant(62) == Word(0xbef9a3f7) && RoundConstant(63) == Word(0xc67178f2)
  {}

  lemma Compressed(v: Vars)
    requires After(64, v)
    ensures Compress(IV(), BLOCK) ==
      [Add(IV()[0], v.a), Add(IV()[1], v.b), Add(IV()[2], v.c), Add(IV()[3], v.d),
       Add(IV()[4], v.e), Add(IV()[5], v.f), Add(IV()[6], v.g), Add(IV()[7], v.h)]
  {
    hide Rounds, Add;
  }

  lemma AbcCompressed()
    ensures Compress(IV(), BLOCK) == [Word(0xba7816bf), Word(0x8f01cfea), Word(0x414140de), Word(0x5dae2223),
      Word(0xb00361a3), Word(0x96177a9c), Word(0xb410ff61), Word(0xf20015ad)]
  {
    hide Rounds, Add, Compress, After;
    Rounds15(64);
    Compressed(Vars(Word(0x506e3058), Word(0xd39a2165), Word(0x04d24d6c), Word(0xb85e2ce9),
                 Word(0x5ef50f24), Word(0xfb121210), Word(0x948d25b6), Word(0x961f4894)));
    Sums();
  }

  lemma Sums()
    ensures Add(Word(0x6a09e667), Word(0x506e3058)) == Word(0xba7816bf)
    ensures Add(Word(0xbb67ae85), Word(0xd39a2165)) == Word(0x8f01cfea)
    ensures Add(Word(0x3c6ef372), Word(0x04d24d6c)) == Word(0x414140de)
    ensures Add(Word(0xa54ff53a), Word(0xb85e2ce9)) == Word(0x5dae2223)
    ensures Add(Word(0x510e527f), Word(0x5ef50f24)) == Word(0xb00361a3)
    ensures Add(Word(0x9b05688c), Word(0xfb121210)) == Word(0x96177a9c)
    ensures Add(Word(0x1f83d9ab), Word(0x948d25b6)) == Word(0xb410ff61)
    ensures Add(Word(0x5be0cd19), Word(0x961f4894)) == Word(0xf20015ad)
  {}

  /** The digest published for "abc", four bytes to a group. */
  lemma AbcDigest()
    ensures Hash(ABC) ==
      [0xba, 0x78, 0x16, 0xbf] + ([0x8f, 0x01, 0xcf, 0xea] + ([0x41, 0x41, 0x40, 0xde]
      + ([0x5d, 0xae, 0x22, 0x23] + ([0xb0, 0x03, 0x61, 0xa3] + ([0x96, 0x17, 0x7a, 0x9c]
      + ([0xb4, 0x10, 0xff, 0x61] + [0xf2, 0x00, 0x15, 0xad]))))))
  {
    hide Compress, Pad, Fold, WordBigEndian, Serialized;
    AbcPadded();
    AbcCompressed();
    OneBlock();
    var h := Compress(IV(), BLOCK);
    WordBytes0();
    WordBytes1();
    WordBytes2();
    WordBytes3();
    WordBytes4();
    WordBytes5();
    WordBytes6();
    WordBytes7();
    SerializedEight(h);
    assert WordBigEndian(h[7]) + [] == WordBigEndian(h[7]);
  }

  lemma SerializedEight(h: seq<Word>)
    requires |h| == 8
    ensures Serialized(h) ==
      WordBigEndian(h[0]) + (WordBigEndian(h[1]) + (WordBigEndian(h[2]) + (WordBigEndian(h[3])
      + (WordBigEndian(h[4]) + (WordBigEndian(h[5]) + (WordBigEndian(h[6]) + (WordBigEndian(h[7]) + [])))))))
  {
    hide WordBigEndian, Serialized;
    forall i | 0 <= i < 8
      ensures Serialized(h[i..]) == WordBigEndian(h[i]) + Serialized(h[i + 1..])
    {
      SerializedOne(h[i..]);
      assert h[i..][1..] == h[i + 1..];
    }
    assert h[0..] == h && h[8..] == [];
    SerializedNone();
  }

  lemma SerializedOne(h: seq<Word>)
    requires h != []
    ensures Serialized(h) == WordBigEndian(h[0]) + Serialized(h[1..])
  {}

  lemma SerializedNone()
    ensures Serialized([]) == []
  {}

  lemma OneBlock()
    ensures Fold(IV(), BLOCK) == Compress(IV(), BLOCK)
  {
    hide Compress;
    assert BLOCK[..64] == BLOCK && BLOCK[64..] == [];
  }

  lemma WordBytes0()
    ensures WordBigEndian(Word(0xba7816bf)) == [0xba, 0x78, 0x16, 0xbf]
  {}

  lemma WordBytes1()
    ensures WordBigEndian(Word(0x8f01cfea)) == [0x8f, 0x01, 0xcf, 0xea]
  {}

  lemma WordBytes2()
    ensures WordBigEndian(Word(0x414140de)) == [0x41, 0x41, 0x40, 0xde]
  {}

  lemma WordBytes3()
    ensures WordBigEndian(Word(0x5dae2223)) == [0x5d, 0xae, 0x22, 0x23]
  {}

  lemma WordBytes4()
    ensures WordBigEndian(Word(0xb00361a3)) == [0xb0, 0x03, 0x61, 0xa3]
  {}

  lemma WordBytes5()
    ensures WordBigEndian(Word(0x96177a9c)) == [0x96, 0x17, 0x7a, 0x9c]
  {}

  lemma WordBytes6()
    ensures WordBigEndian(Word(0xb410ff61)) == [0xb4, 0x10, 0xff, 0x61]
  {}

  lemma WordBytes7()
    ensures WordBigEndian(Word(0xf20015ad)) == [0xf2, 0x00, 0x15, 0xad]
  {}
}
