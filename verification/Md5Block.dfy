/** The block function of rtsp-server/3rdpart/md5/md5.hpp: sections 3.3 and 3.4
    of RFC 1321. */
module Md5Block {
  import opened Bytes

  datatype Abcd = Abcd(a: bv32, b: bv32, c: bv32, d: bv32)

  /** Word index, rotation and additive constant of one operation. */
  datatype Step = Step(k: nat, s: nat, t: bv32)

  const INIT := Abcd(0x67452301, 0xefcdab89, 0x98badcfe, 0x10325476)

  /** The 64 operations in program order. */
  function StepAt(i: nat): (r: Step)
    ensures r.k < 16 && r.s <= 32
  {
    match i
    case 0 => Step(0, 7, 0xd76aa478) case 1 => Step(1, 12, 0xe8c7b756) case 2 => Step(2, 17, 0x242070db)
    case 3 => Step(3, 22, 0xc1bdceee) case 4 => Step(4, 7, 0xf57c0faf) case 5 => Step(5, 12, 0x4787c62a)
    case 6 => Step(6, 17, 0xa8304613) case 7 => Step(7, 22, 0xfd469501) case 8 => Step(8, 7, 0x698098d8)
    case 9 => Step(9, 12, 0x8b44f7af) case 10 => Step(10, 17, 0xffff5bb1) case 11 => Step(11, 22, 0x895cd7be)
    case 12 => Step(12, 7, 0x6b901122) case 13 => Step(13, 12, 0xfd987193) case 14 => Step(14, 17, 0xa679438e)
    case 15 => Step(15, 22, 0x49b40821) case 16 => Step(1, 5, 0xf61e2562) case 17 => Step(6, 9, 0xc040b340)
    case 18 => Step(11, 14, 0x265e5a51) case 19 => Step(0, 20, 0xe9b6c7aa) case 20 => Step(5, 5, 0xd62f105d)
    case 21 => Step(10, 9, 0x02441453) case 22 => Step(15, 14, 0xd8a1e681) case 23 => Step(4, 20, 0xe7d3fbc8)
    case 24 => Step(9, 5, 0x21e1cde6) case 25 => Step(14, 9, 0xc33707d6) case 26 => Step(3, 14, 0xf4d50d87)
    case 27 => Step(8, 20, 0x455a14ed) case 28 => Step(13, 5, 0xa9e3e905) case 29 => Step(2, 9, 0xfcefa3f8)
    case 30 => Step(7, 14, 0x676f02d9) case 31 => Step(12, 20, 0x8d2a4c8a) case 32 => Step(5, 4, 0xfffa3942)
    case 33 => Step(8, 11, 0x8771f681) case 34 => Step(11, 16, 0x6d9d6122) case 35 => Step(14, 23, 0xfde5380c)
    case 36 => Step(1, 4, 0xa4beea44) case 37 => Step(4, 11, 0x4bdecfa9) case 38 => Step(7, 16, 0xf6bb4b60)
    case 39 => Step(10, 23, 0xbebfbc70) case 40 => Step(13, 4, 0x289b7ec6) case 41 => Step(0, 11, 0xeaa127fa)
    case 42 => Step(3, 16, 0xd4ef3085) case 43 => Step(6, 23, 0x04881d05) case 44 => Step(9, 4, 0xd9d4d039)
    case 45 => Step(12, 11, 0xe6db99e5) case 46 => Step(15, 16, 0x1fa27cf8) case 47 => Step(2, 23, 0xc4ac5665)
    case 48 => Step(0, 6, 0xf4292244) case 49 => Step(7, 10, 0x432aff97) case 50 => Step(14, 15, 0xab9423a7)
    case 51 => Step(5, 21, 0xfc93a039) case 52 => Step(12, 6, 0x655b59c3) case 53 => Step(3, 10, 0x8f0ccc92)
    case 54 => Step(10, 15, 0xffeff47d) case 55 => Step(1, 21, 0x85845dd1) case 56 => Step(8, 6, 0x6fa87e4f)
    case 57 => Step(15, 10, 0xfe2ce6e0) case 58 => Step(6, 15, 0xa3014314) case 59 => Step(13, 21, 0x4e0811a1)
    case 60 => Step(4, 6, 0xf7537e82) case 61 => Step(11, 10, 0xbd3af235) case 62 => Step(2, 15, 0x2ad7d2bb)
    case _ => Step(9, 21, 0xeb86d391)
  }

  function F(x: bv32, y: bv32, z: bv32): bv32 { (x & y) | (!x & z) }
  function G(x: bv32, y: bv32, z: bv32): bv32 { (x & z) | (y & !z) }
  function H(x: bv32, y: bv32, z: bv32): bv32 { x ^ y ^ z }
  function I(x: bv32, y: bv32, z: bv32): bv32 { y ^ (x | !z) }

  function Mix(round: nat, v: Abcd): bv32 {
    if round == 0 then F(v.b, v.c, v.d)
    else if round == 1 then G(v.b, v.c, v.d)
    else if round == 2 then H(v.b, v.c, v.d)
    else I(v.b, v.c, v.d)
  }

  /** Addition modulo 2^32. */
  function Add(x: bv32, y: bv32): bv32 { x + y }

  function RotateLeft(x: bv32, n: nat): bv32
    requires n <= 32
  {
    (x << n) | (x >> (32 - n))
  }

  /** Word k of a block, least significant byte first. */
  function BlockWord(block: seq<Byte>, k: nat): bv32
    requires 4 * k + 4 <= |block|
  {
    Word(block[4 * k], block[4 * k + 1], block[4 * k + 2], block[4 * k + 3])
  }

  /** One operation. The program renames its four variables from one operation
      to the next; here they move round instead. */
  function Operation(v: Abcd, block: seq<Byte>, i: nat): Abcd
    requires |block| == 64
  {
    var step := StepAt(i);
    var t := Add(Add(Add(v.a, Mix(i / 16, v)), BlockWord(block, step.k)), step.t);
    Abcd(v.d, Add(RotateLeft(t, step.s), v.b), v.b, v.c)
  }

  /** The first n operations. */
  function Operations(v: Abcd, block: seq<Byte>, n: nat): Abcd
    requires |block| == 64
  {
    if n == 0 then v else Operation(Operations(v, block, n - 1), block, n - 1)
  }

  /** `md5_process`; the program calls it with 64 bytes only. */
  function Process(v: Abcd, block: seq<Byte>): Abcd {
    if |block| != 64 then v
    else
      var r := Operations(v, block, 64);
      Abcd(Add(v.a, r.a), Add(v.b, r.b), Add(v.c, r.c), Add(v.d, r.d))
  }

  /** The program's SET: one operation with the four variables in their roles. */
  method Set(a: bv32, b: bv32, c: bv32, d: bv32, block: seq<Byte>, i: nat) returns (r: bv32)
    requires |block| == 64
    ensures Operation(Abcd(a, b, c, d), block, i) == Abcd(d, r, b, c)
  {
    hide StepAt, RotateLeft, Mix, BlockWord, Add;
    var step := StepAt(i);
    var t := Add(Add(Add(a, Mix(i / 16, Abcd(a, b, c, d))), BlockWord(block, step.k)), step.t);
    r := Add(RotateLeft(t, step.s), b);
  }

  /** Four SET statements, each with the variables renamed by one place, are four
      operations. */
  method SetFour(v: Abcd, block: seq<Byte>, i: nat, ghost start: Abcd) returns (r: Abcd)
    requires |block| == 64 && v == Operations(start, block, i)
    ensures r == Operations(start, block, i + 4)
  {
    hide Operation;
    var a, b, c, d := v.a, v.b, v.c, v.d;
    a := Set(a, b, c, d, block, i);
    assert Operations(start, block, i + 1) == Abcd(d, a, b, c);
    d := Set(d, a, b, c, block, i + 1);
    assert Operations(start, block, i + 2) == Abcd(c, d, a, b);
    c := Set(c, d, a, b, block, i + 2);
    assert Operations(start, block, i + 3) == Abcd(b, c, d, a);
    b := Set(b, c, d, a, block, i + 3);
    r := Abcd(a, b, c, d);
  }

  /** `md5_process`: four rounds of sixteen SET statements and the final additions
      compute the block function. */
  method ProcessBlock(v: Abcd, block: seq<Byte>) returns (r: Abcd)
    requires |block| == 64
    ensures r == Process(v, block)
  {
    hide Operations, Operation, Add;
    NoOperations(v, block);
    // round 1
    r := SetFour(v, block, 0, v);
    r := SetFour(r, block, 4, v);
    r := SetFour(r, block, 8, v);
    r := SetFour(r, block, 12, v);
    // round 2
    r := SetFour(r, block, 16, v);
    r := SetFour(r, block, 20, v);
    r := SetFour(r, block, 24, v);
    r := SetFour(r, block, 28, v);
    // round 3
    r := SetFour(r, block, 32, v);
    r := SetFour(r, block, 36, v);
    r := SetFour(r, block, 40, v);
    r := SetFour(r, block, 44, v);
    // round 4
    r := SetFour(r, block, 48, v);
    r := SetFour(r, block, 52, v);
    r := SetFour(r, block, 56, v);
    r := SetFour(r, block, 60, v);
    r := Abcd(Add(v.a, r.a), Add(v.b, r.b), Add(v.c, r.c), Add(v.d, r.d));
  }

  lemma NoOperations(v: Abcd, block: seq<Byte>)
    requires |block| == 64
    ensures Operations(v, block, 0) == v
  {
  }

  /** Word order of the four rounds of section 3.4. */
  function WordIndex(i: nat): nat {
    match i / 16
    case 0 => i
    case 1 => (5 * i + 1) % 16
    case 2 => (3 * i + 5) % 16
    case _ => 7 * i % 16
  }

  /** Rotations of the four rounds of section 3.4. */
  function Rotation(i: nat): nat {
    match i / 16
    case 0 => 7 + 5 * (i % 4)
    case 1 => if i % 4 == 0 then 5 else if i % 4 == 1 then 9 else if i % 4 == 2 then 14 else 20
    case 2 => if i % 4 == 0 then 4 else if i % 4 == 1 then 11 else if i % 4 == 2 then 16 else 23
    case _ => if i % 4 == 0 then 6 else if i % 4 == 1 then 10 else if i % 4 == 2 then 15 else 21
  }

  lemma WordOrder(i: nat)
    requires i < 64
    ensures StepAt(i).k == WordIndex(i)
  {
    match i
    case 0 => case 1 => case 2 => case 3 => case 4 => case 5 => case 6 => case 7 =>
    case 8 => case 9 => case 10 => case 11 => case 12 => case 13 => case 14 => case 15 =>
    case 16 => case 17 => case 18 => case 19 => case 20 => case 21 => case 22 => case 23 =>
    case 24 => case 25 => case 26 => case 27 => case 28 => case 29 => case 30 => case 31 =>
    case 32 => case 33 => case 34 => case 35 => case 36 => case 37 => case 38 => case 39 =>
    case 40 => case 41 => case 42 => case 43 => case 44 => case 45 => case 46 => case 47 =>
    case 48 => case 49 => case 50 => case 51 => case 52 => case 53 => case 54 => case 55 =>
    case 56 => case 57 => case 58 => case 59 => case 60 => case 61 => case 62 => case 63 =>
    case _ => assert false;
  }

  lemma Rotations(i: nat)
    requires i < 64
    ensures StepAt(i).s == Rotation(i)
  {
    match i
    case 0 => case 1 => case 2 => case 3 => case 4 => case 5 => case 6 => case 7 =>
    case 8 => case 9 => case 10 => case 11 => case 12 => case 13 => case 14 => case 15 =>
    case 16 => case 17 => case 18 => case 19 => case 20 => case 21 => case 22 => case 23 =>
    case 24 => case 25 => case 26 => case 27 => case 28 => case 29 => case 30 => case 31 =>
    case 32 => case 33 => case 34 => case 35 => case 36 => case 37 => case 38 => case 39 =>
    case 40 => case 41 => case 42 => case 43 => case 44 => case 45 => case 46 => case 47 =>
    case 48 => case 49 => case 50 => case 51 => case 52 => case 53 => case 54 => case 55 =>
    case 56 => case 57 => case 58 => case 59 => case 60 => case 61 => case 62 => case 63 =>
    case _ => assert false;
  }
}
