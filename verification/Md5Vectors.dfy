/** The block function against section 3.4 and appendix A.5 of RFC 1321: which round
    function each operation uses, and two vectors of the test suite, whose digests depend
    on every constant of rtsp-server/3rdpart/md5/md5.hpp. */
module Md5Vectors {
  import opened Bytes
  import opened Md5Block
  import opened Md5

  // ---------------------------------------------------------------------------
  // The round functions
  // ---------------------------------------------------------------------------

  /** The bits of r under the mask, and the others. */
  function On(r: bv32, mask: bv32): bv32 { r & mask }
  function Off(r: bv32, mask: bv32): bv32 { r & !mask }

  /** r has the bits of y where the mask is set, and those of z elsewhere. */
  predicate Takes(r: bv32, mask: bv32, y: bv32, z: bv32) {
    On(r, mask) == On(y, mask) && Off(r, mask) == Off(z, mask)
  }

  lemma TakesIsUnique(r: bv32, s: bv32, mask: bv32, y: bv32, z: bv32)
    requires Takes(r, mask, y, z) && Takes(s, mask, y, z)
    ensures r == s
  {
    hide On, Off;
    Parts(r, mask);
    Parts(s, mask);
  }

  lemma Parts(r: bv32, mask: bv32)
    ensures r == On(r, mask) | Off(r, mask)
  {
  }

  lemma FOn(x: bv32, y: bv32, z: bv32)
    ensures On(F(x, y, z), x) == On(y, x)
  {
  }

  lemma FOff(x: bv32, y: bv32, z: bv32)
    ensures Off(F(x, y, z), x) == Off(z, x)
  {
  }

  lemma GOn(x: bv32, y: bv32, z: bv32)
    ensures On(G(x, y, z), z) == On(x, z)
  {
  }

  lemma GOff(x: bv32, y: bv32, z: bv32)
    ensures Off(G(x, y, z), z) == Off(y, z)
  {
  }

  lemma HOn(x: bv32, y: bv32, z: bv32)
    ensures On(H(x, y, z), y ^ z) == On(!x, y ^ z)
  {
  }

  lemma HOff(x: bv32, y: bv32, z: bv32)
    ensures Off(H(x, y, z), y ^ z) == Off(x, y ^ z)
  {
  }

  lemma IOn(x: bv32, y: bv32, z: bv32)
    ensures On(I(x, y, z), x | !z) == On(!y, x | !z)
  {
  }

  lemma IOff(x: bv32, y: bv32, z: bv32)
    ensures Off(I(x, y, z), x | !z) == Off(y, x | !z)
  {
  }

  /** F takes y where x is set and z elsewhere, G takes x where z is set and y elsewhere,
      H flips x where y and z differ, and I flips y where x is set or z is not. */
  lemma RoundFunctions(x: bv32, y: bv32, z: bv32)
    ensures Takes(F(x, y, z), x, y, z) && Takes(G(x, y, z), z, x, y)
    ensures Takes(H(x, y, z), y ^ z, !x, x) && Takes(I(x, y, z), x | !z, !y, y)
  {
    hide On, Off, F, G, H, I;
    FOn(x, y, z); FOff(x, y, z);
    GOn(x, y, z); GOff(x, y, z);
    HOn(x, y, z); HOff(x, y, z);
    IOn(x, y, z); IOff(x, y, z);
  }

  /** The first sixteen operations choose by the bits of b, the next by those of d; then
      comes the parity, and at last c is flipped where b is set or d is not. */
  lemma MixTakes(i: nat, v: Abcd)
    requires i < 64
    ensures i < 16 ==> Takes(Mix(i / 16, v), v.b, v.c, v.d)
    ensures 16 <= i < 32 ==> Takes(Mix(i / 16, v), v.d, v.b, v.c)
    ensures 32 <= i < 48 ==> Takes(Mix(i / 16, v), v.c ^ v.d, !v.b, v.b)
    ensures 48 <= i ==> Takes(Mix(i / 16, v), v.b | !v.d, !v.c, v.c)
  {
    hide F, G, H, I, Takes;
    RoundFunctions(v.b, v.c, v.d);
  }

  lemma ShortLength(m: seq<Byte>)
    requires |m| < 32
    ensures LengthBytes(m) == [FromNat(8 * |m|)] + seq(7, _ => FromNat(0))
  {
    hide FromNat;
    LowByte(8 * |m|);
    LowByte(0);
  }

  lemma LowByte(n: nat)
    requires n < 256
    ensures Le32(n) == [FromNat(n), FromNat(0), FromNat(0), FromNat(0)]
    ensures n % WORD == n && n / WORD % WORD == 0
  {
    hide FromNat;
  }

  lemma OneBlock(f: BlockFunction, block: seq<Byte>)
    requires |block| == 64
    ensures Blocks(f, INIT, block) == f(INIT, block)
  {
    assert block[..64] == block && block[64..] == [];
    assert Blocks(f, INIT, block) == Blocks(f, f(INIT, block), []);
  }

  // ---------------------------------------------------------------------------
  // The empty message
  // ---------------------------------------------------------------------------

  const EMPTY_BLOCK: seq<Byte> := [0x80] + Zeros(63)

  lemma EmptyBlockWord(k: nat)
    requires k < 16
    ensures |EMPTY_BLOCK| == 64 && BlockWord(EMPTY_BLOCK, k) == if k == 0 then 0x80 else 0
  {
  }

  /** The four starting words, and then the word that each operation sets. */
  function EmptyWord(k: nat): bv32 {
    match k
    case 0 => 0x67452301 case 1 => 0x10325476 case 2 => 0x98badcfe case 3 => 0xefcdab89
    case 4 => 0xa5202774 case 5 => 0xf59592dd case 6 => 0xe7f06b23 case 7 => 0x1b163203
    case 8 => 0x32033344 case 9 => 0x2f35d494 case 10 => 0xf5b158db case 11 => 0x9bc13ce9
    case 12 => 0x3893b991 case 13 => 0xfce4a312 case 14 => 0xe1ef0576 case 15 => 0x70768a29
    case 16 => 0xf56c7cf1 case 17 => 0x374943a7 case 18 => 0x5aa53f75 case 19 => 0xd6819c6a
    case 20 => 0x1c7d7513 case 21 => 0x7bd57a3a case 22 => 0xc095f13a case 23 => 0xbd782e17
    case 24 => 0x3d1e3e6c case 25 => 0x68b7b3e3 case 26 => 0xeb41643e case 27 => 0xe422531a
    case 28 => 0x306ec122 case 29 => 0xd28c77c2 case 30 => 0xa3c663da case 31 => 0xa0572807
    case 32 => 0x13707036 case 33 => 0xae7813db case 34 => 0x1c31c384 case 35 => 0xa2205f1f
    case 36 => 0xdf63eaa1 case 37 => 0xc3689f5b case 38 => 0x12f3e755 case 39 => 0x004b6669
    case 40 => 0x5f7a9b2e case 41 => 0xabc34e16 case 42 => 0x91ca4cb7 case 43 => 0xc5dc8c15
    case 44 => 0x4497169d case 45 => 0x76fd93d4 case 46 => 0xfd95f243 case 47 => 0x0fe32453
    case 48 => 0x3f55edfd case 49 => 0x22a31f54 case 50 => 0x68d84ea2 case 51 => 0xca7d2dbd
    case 52 => 0x93aa2577 case 53 => 0x1688dc85 case 54 => 0xcd85b8cb case 55 => 0x561e0689
    case 56 => 0x5625a114 case 57 => 0x3450f42b case 58 => 0x392ad0d0 case 59 => 0x1e77fa61
    case 60 => 0x474a9c8c case 61 => 0xdfce00bc case 62 => 0x36594b14 case 63 => 0x30130182
    case 64 => 0x7246fad3 case 65 => 0x6e10a476 case 66 => 0xff4ea3eb case _ => 0x14e45506
  }

  function EmptyState(i: nat): Abcd {
    Abcd(EmptyWord(i), EmptyWord(i + 3), EmptyWord(i + 2), EmptyWord(i + 1))
  }

  lemma EmptySteps0(i: nat)
    requires 0 <= i < 8
    ensures |EMPTY_BLOCK| == 64 && Operation(EmptyState(i), EMPTY_BLOCK, i) == EmptyState(i + 1)
  {
    hide BlockWord;
    EmptyBlockWord(StepAt(i).k);
    match i
    case 0 => case 1 => case 2 => case 3 => case 4 => case 5 => case 6 => case 7 =>
    case _ => assert false;
  }

  lemma EmptySteps8(i: nat)
    requires 8 <= i < 16
    ensures |EMPTY_BLOCK| == 64 && Operation(EmptyState(i), EMPTY_BLOCK, i) == EmptyState(i + 1)
  {
    hide BlockWord;
    EmptyBlockWord(StepAt(i).k);
    match i
    case 8 => case 9 => case 10 => case 11 => case 12 => case 13 => case 14 => case 15 =>
    case _ => assert false;
  }

  lemma EmptySteps16(i: nat)
    requires 16 <= i < 24
    ensures |EMPTY_BLOCK| == 64 && Operation(EmptyState(i), EMPTY_BLOCK, i) == EmptyState(i + 1)
  {
    hide BlockWord;
    EmptyBlockWord(StepAt(i).k);
    match i
    case 16 => case 17 => case 18 => case 19 => case 20 => case 21 => case 22 => case 23 =>
    case _ => assert false;
  }

  lemma EmptySteps24(i: nat)
    requires 24 <= i < 32
    ensures |EMPTY_BLOCK| == 64 && Operation(EmptyState(i), EMPTY_BLOCK, i) == EmptyState(i + 1)
  {
    hide BlockWord;
    EmptyBlockWord(StepAt(i).k);
    match i
    case 24 => case 25 => case 26 => case 27 => case 28 => case 29 => case 30 => case 31 =>
    case _ => assert false;
  }

  lemma EmptySteps32(i: nat)
    requires 32 <= i < 40
    ensures |EMPTY_BLOCK| == 64 && Operation(EmptyState(i), EMPTY_BLOCK, i) == EmptyState(i + 1)
  {
    hide BlockWord;
    EmptyBlockWord(StepAt(i).k);
    match i
    case 32 => case 33 => case 34 => case 35 => case 36 => case 37 => case 38 => case 39 =>
    case _ => assert false;
  }

  lemma EmptySteps40(i: nat)
    requires 40 <= i < 48
    ensures |EMPTY_BLOCK| == 64 && Operation(EmptyState(i), EMPTY_BLOCK, i) == EmptyState(i + 1)
  {
    hide BlockWord;
    EmptyBlockWord(StepAt(i).k);
    match i
    case 40 => case 41 => case 42 => case 43 => case 44 => case 45 => case 46 => case 47 =>
    case _ => assert false;
  }

  lemma EmptySteps48(i: nat)
    requires 48 <= i < 56
    ensures |EMPTY_BLOCK| == 64 && Operation(EmptyState(i), EMPTY_BLOCK, i) == EmptyState(i + 1)
  {
    hide BlockWord;
    EmptyBlockWord(StepAt(i).k);
    match i
    case 48 => case 49 => case 50 => case 51 => case 52 => case 53 => case 54 => case 55 =>
    case _ => assert false;
  }

  lemma EmptySteps56(i: nat)
    requires 56 <= i < 64
    ensures |EMPTY_BLOCK| == 64 && Operation(EmptyState(i), EMPTY_BLOCK, i) == EmptyState(i + 1)
  {
    hide BlockWord;
    EmptyBlockWord(StepAt(i).k);
    match i
    case 56 => case 57 => case 58 => case 59 => case 60 => case 61 => case 62 => case 63 =>
    case _ => assert false;
  }

  lemma EmptyStep(i: nat)
    requires i < 64
    ensures |EMPTY_BLOCK| == 64 && Operation(EmptyState(i), EMPTY_BLOCK, i) == EmptyState(i + 1)
  {
    hide Operation, EmptyState;
    match i / 8
    case 0 => EmptySteps0(i);
    case 1 => EmptySteps8(i);
    case 2 => EmptySteps16(i);
    case 3 => EmptySteps24(i);
    case 4 => EmptySteps32(i);
    case 5 => EmptySteps40(i);
    case 6 => EmptySteps48(i);
    case _ => EmptySteps56(i);
  }

  lemma {:induction false} EmptyTrace(n: nat)
    requires n <= 64
    ensures |EMPTY_BLOCK| == 64 && Operations(INIT, EMPTY_BLOCK, n) == EmptyState(n)
  {
    hide Operation, EmptyState;
    if n == 0 {
      EmptyStarts();
    } else {
      EmptyTrace(n - 1);
      EmptyStep(n - 1);
    }
  }

  lemma EmptyStarts()
    ensures |EMPTY_BLOCK| == 64 && EmptyState(0) == INIT
  {
    EmptyBlockWord(0);
  }

  /** The digest of the empty message in appendix A.5. */
  lemma EmptyDigest()
    ensures OneShot(Process, []) ==
            [0xd4, 0x1d, 0x8c, 0xd9, 0x8f, 0x00, 0xb2, 0x04,
             0xe9, 0x80, 0x09, 0x98, 0xec, 0xf8, 0x42, 0x7e]
  {
    hide Operations, Padded;
    EmptyTrace(64);
    EmptyPadded();
    OneBlock(Process, EMPTY_BLOCK);
  }

  lemma EmptyPadded()
    ensures |EMPTY_BLOCK| == 64 && Padded([]) == EMPTY_BLOCK
  {
    hide ZeroPadded, LengthBytes;
    EmptyBlockWord(0);
    EmptyLength();
    ZeroPaddedIs([] + [0x80]);
  }

  lemma EmptyLength()
    ensures LengthBytes([]) == Zeros(8)
  {
    hide FromNat;
    ShortLength([]);
    EmptyBits();
  }

  lemma EmptyBits()
    ensures FromNat(0) == 0
  {
    hide FromBits;
    assert FromNat(0) == FromBits(false, false, false, false, false, false, false, false);
    EmptyFromBits();
  }

  lemma EmptyFromBits()
    ensures FromBits(false, false, false, false, false, false, false, false) == 0
  {
  }

  // ---------------------------------------------------------------------------
  // The message "abc"
  // ---------------------------------------------------------------------------

  const ABC_BLOCK: seq<Byte> := [0x61, 0x62, 0x63, 0x80] + Zeros(52) + [24] + Zeros(7)

  lemma AbcBlockWord(k: nat)
    requires k < 16
    ensures |ABC_BLOCK| == 64 && BlockWord(ABC_BLOCK, k) == if k == 0 then 0x80636261 else if k == 14 then 24 else 0
  {
  }

  /** The four starting words, and then the word that each operation sets. */
  function AbcWord(k: nat): bv32 {
    match k
    case 0 => 0x67452301 case 1 => 0x10325476 case 2 => 0x98badcfe case 3 => 0xefcdab89
    case 4 => 0xd6d117b4 case 5 => 0x344a8432 case 6 => 0x2f6fbd72 case 7 => 0x7ad956f2
    case 8 => 0xc73741ef case 9 => 0x8bac3051 case 10 => 0x207dc67b case 11 => 0x928d99f6
    case 12 => 0x854b3712 case 13 => 0x74e2f284 case 14 => 0x3020401c case 15 => 0x5ed49596
    case 16 => 0xdda9b9a6 case 17 => 0xa1051895 case 18 => 0xe396856b case 19 => 0x72aff2e0
    case 20 => 0x3e9e9126 case 21 => 0x4a1d804e case 22 => 0xe25e1652 case 23 => 0xb5b204e4
    case 24 => 0x59a8ffda case 25 => 0x6d002f1e case 26 => 0xabfc7920 case 27 => 0x47092c07
    case 28 => 0xb7f268cf case 29 => 0x09388eff case 30 => 0xfe1623b1 case 31 => 0x786acb8f
    case 32 => 0x790a77fb case 33 => 0x9f47e4f8 case 34 => 0xa62884aa case 35 => 0x726342d3
    case 36 => 0xb3707ebf case 37 => 0x60127b2e case 38 => 0x8d212ff5 case 39 => 0x3b0875c7
    case 40 => 0x21b117b9 case 41 => 0x6e7429d5 case 42 => 0x3575227e case 43 => 0x5a2f5ea5
    case 44 => 0x11de1779 case 45 => 0xfadcaa38 case 46 => 0x31c465ca case 47 => 0x4c6124f4
    case 48 => 0x7f2e507b case 49 => 0x99d9679d case 50 => 0x8fae6399 case 51 => 0x7beb9700
    case 52 => 0x7b201df8 case 53 => 0xf4e8e96e case 54 => 0xb298cefd case 55 => 0x8bf025c4
    case 56 => 0x06cc5e8a case 57 => 0x5b0d97aa case 58 => 0x7d632dd0 case 59 => 0x3bfa2c27
    case 60 => 0x7f81cc35 case 61 => 0x094454ab case 62 => 0x4f9dbe3f case 63 => 0x7327d604
    case 64 => 0x310ade8f case 65 => 0x624d8cb2 case 66 => 0xe484b9d8 case _ => 0xc08226b3
  }

  function AbcState(i: nat): Abcd {
    Abcd(AbcWord(i), AbcWord(i + 3), AbcWord(i + 2), AbcWord(i + 1))
  }

  lemma AbcSteps0(i: nat)
    requires 0 <= i < 8
    ensures |ABC_BLOCK| == 64 && Operation(AbcState(i), ABC_BLOCK, i) == AbcState(i + 1)
  {
    hide BlockWord;
    AbcBlockWord(StepAt(i).k);
    match i
    case 0 => case 1 => case 2 => case 3 => case 4 => case 5 => case 6 => case 7 =>
    case _ => assert false;
  }

  lemma AbcSteps8(i: nat)
    requires 8 <= i < 16
    ensures |ABC_BLOCK| == 64 && Operation(AbcState(i), ABC_BLOCK, i) == AbcState(i + 1)
  {
    hide BlockWord;
    AbcBlockWord(StepAt(i).k);
    match i
    case 8 => case 9 => case 10 => case 11 => case 12 => case 13 => case 14 => case 15 =>
    case _ => assert false;
  }

  lemma AbcSteps16(i: nat)
    requires 16 <= i < 24
    ensures |ABC_BLOCK| == 64 && Operation(AbcState(i), ABC_BLOCK, i) == AbcState(i + 1)
  {
    hide BlockWord;
    AbcBlockWord(StepAt(i).k);
    match i
    case 16 => case 17 => case 18 => case 19 => case 20 => case 21 => case 22 => case 23 =>
    case _ => assert false;
  }

  lemma AbcSteps24(i: nat)
    requires 24 <= i < 32
    ensures |ABC_BLOCK| == 64 && Operation(AbcState(i), ABC_BLOCK, i) == AbcState(i + 1)
  {
    hide BlockWord;
    AbcBlockWord(StepAt(i).k);
    match i
    case 24 => case 25 => case 26 => case 27 => case 28 => case 29 => case 30 => case 31 =>
    case _ => assert false;
  }

  lemma AbcSteps32(i: nat)
    requires 32 <= i < 40
    ensures |ABC_BLOCK| == 64 && Operation(AbcState(i), ABC_BLOCK, i) == AbcState(i + 1)
  {
    hide BlockWord;
    AbcBlockWord(StepAt(i).k);
    match i
    case 32 => case 33 => case 34 => case 35 => case 36 => case 37 => case 38 => case 39 =>
    case _ => assert false;
  }

  lemma AbcSteps40(i: nat)
    requires 40 <= i < 48
    ensures |ABC_BLOCK| == 64 && Operation(AbcState(i), ABC_BLOCK, i) == AbcState(i + 1)
  {
    hide BlockWord;
    AbcBlockWord(StepAt(i).k);
    match i
    case 40 => case 41 => case 42 => case 43 => case 44 => case 45 => case 46 => case 47 =>
    case _ => assert false;
  }

  lemma AbcSteps48(i: nat)
    requires 48 <= i < 56
    ensures |ABC_BLOCK| == 64 && Operation(AbcState(i), ABC_BLOCK, i) == AbcState(i + 1)
  {
    hide BlockWord;
    AbcBlockWord(StepAt(i).k);
    match i
    case 48 => case 49 => case 50 => case 51 => case 52 => case 53 => case 54 => case 55 =>
    case _ => assert false;
  }

  lemma AbcSteps56(i: nat)
    requires 56 <= i < 64
    ensures |ABC_BLOCK| == 64 && Operation(AbcState(i), ABC_BLOCK, i) == AbcState(i + 1)
  {
    hide BlockWord;
    AbcBlockWord(StepAt(i).k);
    match i
    case 56 => case 57 => case 58 => case 59 => case 60 => case 61 => case 62 => case 63 =>
    case _ => assert false;
  }

  lemma AbcStep(i: nat)
    requires i < 64
    ensures |ABC_BLOCK| == 64 && Operation(AbcState(i), ABC_BLOCK, i) == AbcState(i + 1)
  {
    hide Operation, AbcState;
    match i / 8
    case 0 => AbcSteps0(i);
    case 1 => AbcSteps8(i);
    case 2 => AbcSteps16(i);
    case 3 => AbcSteps24(i);
    case 4 => AbcSteps32(i);
    case 5 => AbcSteps40(i);
    case 6 => AbcSteps48(i);
    case _ => AbcSteps56(i);
  }

  lemma {:induction false} AbcTrace(n: nat)
    requires n <= 64
    ensures |ABC_BLOCK| == 64 && Operations(INIT, ABC_BLOCK, n) == AbcState(n)
  {
    hide Operation, AbcState;
    if n == 0 {
      AbcStarts();
    } else {
      AbcTrace(n - 1);
      AbcStep(n - 1);
    }
  }

  lemma AbcStarts()
    ensures |ABC_BLOCK| == 64 && AbcState(0) == INIT
  {
    AbcBlockWord(0);
  }

  /** The digest of the message "abc" in appendix A.5. */
  lemma AbcDigest()
    ensures OneShot(Process, [0x61, 0x62, 0x63]) ==
            [0x90, 0x01, 0x50, 0x98, 0x3c, 0xd2, 0x4f, 0xb0,
             0xd6, 0x96, 0x3f, 0x7d, 0x28, 0xe1, 0x7f, 0x72]
  {
    hide Operations, Padded;
    AbcTrace(64);
    AbcPadded();
    OneBlock(Process, ABC_BLOCK);
  }

  lemma AbcPadded()
    ensures |ABC_BLOCK| == 64 && Padded([0x61, 0x62, 0x63]) == ABC_BLOCK
  {
    hide ZeroPadded, LengthBytes;
    AbcBlockWord(0);
    AbcLength();
    ZeroPaddedIs([0x61, 0x62, 0x63] + [0x80]);
  }

  lemma AbcLength()
    ensures LengthBytes([0x61, 0x62, 0x63]) == [24] + Zeros(7)
  {
    hide FromNat;
    ShortLength([0x61, 0x62, 0x63]);
    AbcBits();
    EmptyBits();
  }

  lemma AbcBits()
    ensures FromNat(24) == 24
  {
    hide FromBits;
    assert FromNat(24) == FromBits(false, false, false, true, true, false, false, false);
    AbcFromBits();
  }

  lemma AbcFromBits()
    ensures FromBits(false, false, false, true, true, false, false, false) == 24
  {
  }
}
