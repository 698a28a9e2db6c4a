/** Bytes of the wire and conversions between bytes and numbers.

    The two conversions spell out the binary expansion, so that the byte
    arithmetic of the protocols stays linear for the solver. */
module Bytes {
  type Byte = bv8

  function Bit(on: bool): nat {
    if on then 1 else 0
  }

  /** The number a byte denotes. */
  function ToNat(b: Byte): (n: nat)
    ensures n < 256
  {
    Bit(b & 0x01 != 0) + 2 * Bit(b & 0x02 != 0) + 4 * Bit(b & 0x04 != 0) + 8 * Bit(b & 0x08 != 0) +
    16 * Bit(b & 0x10 != 0) + 32 * Bit(b & 0x20 != 0) + 64 * Bit(b & 0x40 != 0) + 128 * Bit(b & 0x80 != 0)
  }

  function FromBits(b0: bool, b1: bool, b2: bool, b3: bool, b4: bool, b5: bool, b6: bool, b7: bool): Byte {
    (if b0 then 0x01 else 0) | (if b1 then 0x02 else 0) | (if b2 then 0x04 else 0) | (if b3 then 0x08 else 0) |
    (if b4 then 0x10 else 0) | (if b5 then 0x20 else 0) | (if b6 then 0x40 else 0) | (if b7 then 0x80 else 0)
  }

  lemma FromBitsToNat(b0: bool, b1: bool, b2: bool, b3: bool, b4: bool, b5: bool, b6: bool, b7: bool)
    ensures ToNat(FromBits(b0, b1, b2, b3, b4, b5, b6, b7)) ==
            Bit(b0) + 2 * Bit(b1) + 4 * Bit(b2) + 8 * Bit(b3) + 16 * Bit(b4) + 32 * Bit(b5) + 64 * Bit(b6) + 128 * Bit(b7)
  {
    var b := FromBits(b0, b1, b2, b3, b4, b5, b6, b7);
    assert (b & 0x01 != 0) == b0 && (b & 0x02 != 0) == b1 && (b & 0x04 != 0) == b2 && (b & 0x08 != 0) == b3;
    assert (b & 0x10 != 0) == b4 && (b & 0x20 != 0) == b5 && (b & 0x40 != 0) == b6 && (b & 0x80 != 0) == b7;
  }

  predicate Odd(n: nat) {
    n % 2 == 1
  }

  /** The truncating cast to an 8-bit unsigned integer: the low eight binary digits. */
  function FromNat(n: nat): Byte {
    var n1 := n / 2;
    var n2 := n1 / 2;
    var n3 := n2 / 2;
    var n4 := n3 / 2;
    var n5 := n4 / 2;
    var n6 := n5 / 2;
    var n7 := n6 / 2;
    FromBits(Odd(n), Odd(n1), Odd(n2), Odd(n3), Odd(n4), Odd(n5), Odd(n6), Odd(n7))
  }

  lemma Halve(n: nat, h: nat, d: nat)
    requires h == n / 2 && d == Bit(Odd(n))
    ensures n == 2 * h + d
  {
  }

  lemma LowDigits(n: nat, n1: nat, n2: nat, n3: nat, n4: nat, n5: nat, n6: nat, n7: nat, n8: nat, sum: nat,
                  d0: nat, d1: nat, d2: nat, d3: nat, d4: nat, d5: nat, d6: nat, d7: nat)
    requires n == 2 * n1 + d0 && n1 == 2 * n2 + d1 && n2 == 2 * n3 + d2 && n3 == 2 * n4 + d3
    requires n4 == 2 * n5 + d4 && n5 == 2 * n6 + d5 && n6 == 2 * n7 + d6 && n7 == 2 * n8 + d7
    requires sum == d0 + 2 * d1 + 4 * d2 + 8 * d3 + 16 * d4 + 32 * d5 + 64 * d6 + 128 * d7 < 256
    ensures n % 256 == sum
  {
    Remainder(n, n8, sum);
  }

  lemma Remainder(n: nat, q: nat, r: nat)
    requires n == 256 * q + r && r < 256
    ensures n % 256 == r
  {
  }

  /** Casting down keeps the value modulo 256. */
  lemma FromNatToNat(n: nat)
    ensures ToNat(FromNat(n)) == n % 256
  {
    hide ToNat, FromBits, Bit, Odd;
    var n1 := n / 2;
    var n2 := n1 / 2;
    var n3 := n2 / 2;
    var n4 := n3 / 2;
    var n5 := n4 / 2;
    var n6 := n5 / 2;
    var n7 := n6 / 2;
    var d0, d1, d2, d3 := Bit(Odd(n)), Bit(Odd(n1)), Bit(Odd(n2)), Bit(Odd(n3));
    var d4, d5, d6, d7 := Bit(Odd(n4)), Bit(Odd(n5)), Bit(Odd(n6)), Bit(Odd(n7));
    FromBitsToNat(Odd(n), Odd(n1), Odd(n2), Odd(n3), Odd(n4), Odd(n5), Odd(n6), Odd(n7));
    Halve(n, n1, d0); Halve(n1, n2, d1); Halve(n2, n3, d2); Halve(n3, n4, d3);
    Halve(n4, n5, d4); Halve(n5, n6, d5); Halve(n6, n7, d6); Halve(n7, n7 / 2, d7);
    LowDigits(n, n1, n2, n3, n4, n5, n6, n7, n7 / 2, ToNat(FromNat(n)), d0, d1, d2, d3, d4, d5, d6, d7);
  }

  /** A 16-bit number, most significant byte first. */
  function Be16(n: nat): (s: seq<Byte>)
    ensures |s| == 2
  {
    [FromNat(n / 256), FromNat(n)]
  }

  function ReadBe16(hi: Byte, lo: Byte): nat {
    ToNat(hi) * 256 + ToNat(lo)
  }

  lemma SplitBytes(n: nat, high: nat, top: nat)
    requires high == n / 256 && top == high / 256
    ensures high % 256 * 256 + n % 256 == n % 0x1_0000
  {
    assert n == 0x1_0000 * top + (high % 256 * 256 + n % 256);
  }

  /** Reading back the two bytes of a number gives its low 16 bits. */
  lemma Be16ReadsLow(n: nat)
    ensures ReadBe16(FromNat(n / 256), FromNat(n)) == n % 0x1_0000
  {
    hide ToNat, FromNat;
    FromNatToNat(n / 256);
    FromNatToNat(n);
    SplitBytes(n, n / 256, n / 256 / 256);
  }

  lemma Be16RoundTrip(n: nat)
    requires n < 0x1_0000
    ensures ReadBe16(FromNat(n / 256), FromNat(n)) == n
  {
    hide ReadBe16, FromNat;
    Be16ReadsLow(n);
  }

  /** A 32-bit number, most significant byte first. */
  function Be32(n: nat): (s: seq<Byte>)
    ensures |s| == 4
  {
    Be16(n / 0x1_0000) + Be16(n)
  }

  function ReadBe32(a: Byte, b: Byte, c: Byte, d: Byte): nat {
    ReadBe16(a, b) * 0x1_0000 + ReadBe16(c, d)
  }

  lemma Be32RoundTrip(n: nat)
    requires n < 0x1_0000_0000
    ensures ReadBe32(Be32(n)[0], Be32(n)[1], Be32(n)[2], Be32(n)[3]) == n
  {
    hide ReadBe16, FromNat;
    Be16RoundTrip(n / 0x1_0000);
    Be16ReadsLow(n);
  }

  /** Four bytes as the little-endian word a 32-bit load yields. */
  function Word(a: Byte, b: Byte, c: Byte, d: Byte): bv32 {
    (a as bv32) | ((b as bv32) << 8) | ((c as bv32) << 16) | ((d as bv32) << 24)
  }

  lemma Regroup<T>(a: seq<T>, b: seq<T>, c: seq<T>)
    ensures (a + b) + c == a + (b + c)
  {
  }

  function Concat(messages: seq<seq<Byte>>): seq<Byte> {
    if messages == [] then [] else messages[0] + Concat(messages[1..])
  }

  lemma {:induction false} ConcatSnoc(messages: seq<seq<Byte>>, m: seq<Byte>)
    ensures Concat(messages + [m]) == Concat(messages) + m
  {
    if messages == [] {
      assert (messages + [m])[1..] == [];
    } else {
      ConcatSnoc(messages[1..], m);
      assert (messages + [m])[1..] == messages[1..] + [m];
      Regroup(messages[0], Concat(messages[1..]), m);
    }
  }

  lemma {:induction false} ConcatConcat(a: seq<seq<Byte>>, b: seq<seq<Byte>>)
    ensures Concat(a + b) == Concat(a) + Concat(b)
  {
    if a == [] {
      assert a + b == b;
    } else {
      ConcatConcat(a[1..], b);
      assert (a + b)[1..] == a[1..] + b;
      Regroup(a[0], Concat(a[1..]), Concat(b));
    }
  }
}
