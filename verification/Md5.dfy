/** The streaming digest of rtsp-server/3rdpart/md5/md5.hpp, against the one-shot
    definition in sections 3.1 to 3.5 of RFC 1321. Everything here holds for any
    block function, so for the one in Md5Block. */
module Md5 {
  import opened Bytes
  import opened Md5Block

  const WORD := 0x1_0000_0000
  const DWORD := 0x1_0000_0000_0000_0000

  type BlockFunction = (Abcd, seq<Byte>) -> Abcd

  // ---------------------------------------------------------------------------
  // One-shot definition
  // ---------------------------------------------------------------------------

  /** The block function folded over the whole blocks of s. */
  function Blocks(f: BlockFunction, v: Abcd, s: seq<Byte>): Abcd
    decreases |s|
  {
    if |s| < 64 then v else Blocks(f, f(v, s[..64]), s[64..])
  }

  /** Zero bytes up to 56 modulo 64: the padding bits of section 3.1. */
  function ZeroPadded(s: seq<Byte>): (r: seq<Byte>)
    ensures |r| % 64 == 56
    decreases (56 - |s|) % 64
  {
    if |s| % 64 == 56 then s else ZeroPadded(s + [0])
  }

  function Le32(n: nat): (s: seq<Byte>)
    ensures |s| == 4
  {
    [FromNat(n), FromNat(n / 0x100), FromNat(n / 0x1_0000), FromNat(n / 0x100_0000)]
  }

  /** The length in bits, low-order 64 bits, low-order word first: section 3.2. */
  function LengthBytes(m: seq<Byte>): (s: seq<Byte>)
    ensures |s| == 8
  {
    Le32(8 * |m| % WORD) + Le32(8 * |m| / WORD % WORD)
  }

  function Padded(m: seq<Byte>): seq<Byte> {
    ZeroPadded(m + [0x80]) + LengthBytes(m)
  }

  /** The padded message consists of whole blocks. */
  lemma PaddedIsWhole(m: seq<Byte>)
    ensures OnBoundary(|Padded(m)|)
  {
    hide ZeroPadded, LengthBytes;
  }

  function WordBytes(w: bv32): seq<Byte> {
    [(w & 0xff) as bv8, ((w >> 8) & 0xff) as bv8, ((w >> 16) & 0xff) as bv8, ((w >> 24) & 0xff) as bv8]
  }

  function Digest(v: Abcd): seq<Byte> {
    WordBytes(v.a) + WordBytes(v.b) + WordBytes(v.c) + WordBytes(v.d)
  }

  /** The digest of a message, computed in one go. */
  function OneShot(f: BlockFunction, m: seq<Byte>): seq<Byte> {
    Digest(Blocks(f, INIT, Padded(m)))
  }

  // ---------------------------------------------------------------------------
  // Lemmas
  // ---------------------------------------------------------------------------

  lemma {:induction false} BlocksConcat(f: BlockFunction, v: Abcd, s: seq<Byte>, t: seq<Byte>)
    requires |s| % 64 == 0
    ensures Blocks(f, v, s + t) == Blocks(f, Blocks(f, v, s), t)
    decreases |s|
  {
    if s == [] {
      assert s + t == t;
    } else {
      assert (s + t)[..64] == s[..64] && (s + t)[64..] == s[64..] + t;
      BlocksConcat(f, f(v, s[..64]), s[64..], t);
    }
  }

  predicate OnBoundary(n: nat) {
    n % 64 == 0
  }

  /** Bytes of m that fill whole blocks. */
  function Whole(m: seq<Byte>): (n: nat)
    ensures n <= |m| < n + 64 && OnBoundary(n)
  {
    |m| - |m| % 64
  }

  /** The two counter words hold the low 64 bits of n. */
  predicate Counts(count0: nat, count1: nat, n: nat) {
    count0 < WORD && count1 < WORD && count1 * WORD + count0 == n % DWORD
  }

  /** Adding with a carry between two words is adding modulo 2^64. */
  lemma CounterAdds(count0: nat, count1: nat, n: nat, nbytes: nat, c0: nat, c1: nat)
    requires Counts(count0, count1, 8 * n)
    requires c0 == (count0 + nbytes * 8 % WORD) % WORD
    requires c1 == (count1 + nbytes / 0x2000_0000 % WORD + (if c0 < nbytes * 8 % WORD then 1 else 0)) % WORD
    ensures Counts(c0, c1, 8 * (n + nbytes))
  {
    var nbits, h := nbytes * 8 % WORD, nbytes / 0x2000_0000;
    var carry := if c0 < nbits then 1 else 0;
    var q := 8 * n / DWORD;
    assert 8 * n == q * DWORD + count1 * WORD + count0;
    BitsOf(nbytes);
    AddWords(count0, nbits);
    ModAdds(h, count1 + carry);
    var k := (h + (count1 + carry)) / WORD;
    Carried(8 * n, 8 * nbytes, q, count1, count0, h, nbits, carry, k, c1, c0);
    LowPart(8 * (n + nbytes), q + k, c1 * WORD + c0);
  }

  lemma BitsOf(nbytes: nat)
    ensures 8 * nbytes == nbytes / 0x2000_0000 * WORD + nbytes * 8 % WORD
  {
  }

  /** Adding x and y word by word. */
  lemma Carried(x: nat, y: nat, q: nat, x1: nat, x0: nat, y1: nat, y0: nat, carry: nat, k: nat, r1: nat, r0: nat)
    requires x == q * DWORD + x1 * WORD + x0 && y == y1 * WORD + y0
    requires x0 + y0 == carry * WORD + r0 && y1 + (x1 + carry) == k * WORD + r1
    ensures x + y == (q + k) * DWORD + (r1 * WORD + r0)
  {
  }

  /** The carry of a 32-bit addition shows in the sum. */
  lemma AddWords(a: nat, b: nat)
    requires a < WORD && b < WORD
    ensures var sum := (a + b) % WORD;
            a + b == (if sum < b then 1 else 0) * WORD + sum
  {
  }

  lemma ModAdds(h: nat, k: nat)
    ensures (h % WORD + k) % WORD == (h + k) % WORD
  {
  }

  lemma LowPart(n: nat, q: nat, r: nat)
    requires n == q * DWORD + r && r < DWORD
    ensures n % DWORD == r
  {
  }

  /** The counter tells how full the block buffer is. */
  lemma CounterGivesFill(count0: nat, count1: nat, m: seq<Byte>)
    requires Counts(count0, count1, 8 * |m|)
    ensures count0 / 8 % 64 == |m| - Whole(m)
  {
    CounterGivesOffset(count0, count1, |m|);
  }

  lemma CounterGivesOffset(count0: nat, count1: nat, n: nat)
    requires Counts(count0, count1, 8 * n)
    ensures count0 / 8 % 64 == n % 64
  {
    var q := 8 * n / DWORD;
    assert 8 * n == q * DWORD + count1 * WORD + count0;
    SameOffset(n, q, count1, count0, count0 / 8);
  }

  lemma SameOffset(n: nat, q: nat, high: nat, low: nat, eighth: nat)
    requires 8 * n == q * DWORD + high * WORD + low
    requires eighth == low / 8
    ensures eighth % 64 == n % 64
  {
    var k := q * (DWORD / 512) + high * (WORD / 512);
    assert n == 64 * k + eighth;
    Shift64(eighth, k);
  }

  lemma Shift64(x: int, k: int)
    ensures (x + 64 * k) % 64 == x % 64
  {
    Remainder64(x + 64 * k, x / 64 + k, x % 64);
  }

  lemma Remainder64(x: int, q: int, r: nat)
    requires x == 64 * q + r && r < 64
    ensures x % 64 == r
  {
  }

  lemma NextBlock(f: BlockFunction, m: seq<Byte>, pos: nat)
    requires OnBoundary(pos) && pos + 64 <= |m|
    ensures Blocks(f, INIT, m[..pos + 64]) == f(Blocks(f, INIT, m[..pos]), m[pos..pos + 64])
  {
    var v, block := Blocks(f, INIT, m[..pos]), m[pos..pos + 64];
    assert m[..pos + 64] == m[..pos] + block;
    BlocksConcat(f, INIT, m[..pos], block);
    assert block[..64] == block && block[64..] == [];
    assert Blocks(f, v, block) == Blocks(f, f(v, block), []);
  }

  function Zeros(n: nat): (s: seq<Byte>)
    ensures |s| == n
  {
    seq(n, _ => 0)
  }

  lemma {:induction false} ZeroPaddedIs(s: seq<Byte>)
    ensures ZeroPadded(s) == s + Zeros((56 - |s|) % 64)
    decreases (56 - |s|) % 64
  {
    hide Zeros;
    var n := (56 - |s|) % 64;
    if |s| % 64 == 56 {
      ZerosFollow(s, 0);
    } else {
      ZeroPaddedIs(s + [0]);
      Remainder64(55 - |s|, (56 - |s|) / 64, n - 1);
      ZerosFollow(s, n);
    }
  }

  lemma ZerosFollow(s: seq<Byte>, n: nat)
    ensures s + Zeros(n) == if n == 0 then s else s + [0] + Zeros(n - 1)
  {
  }

  // ---------------------------------------------------------------------------
  // The program
  // ---------------------------------------------------------------------------

  const PAD: seq<Byte> := [0x80] + Zeros(63)

  /** The pad length the program computes from its counter is the one of
      section 3.1. */
  lemma PadIsZeroPadded(m: seq<Byte>, n: nat)
    requires n == (55 - |m|) % 64
    ensures |PAD| == 64 && ZeroPadded(m + [0x80]) == m + PAD[..n + 1]
  {
    hide ZeroPadded, Zeros;
    var s := m + [0x80];
    assert (56 - |s|) % 64 == n;
    ZeroPaddedIs(s);
    PadPrefix(n);
    Regroup(m, [0x80], Zeros(n));
  }

  lemma PadPrefix(n: nat)
    requires n < 64
    ensures PAD[..n + 1] == [0x80] + Zeros(n)
  {
  }

  lemma LongerMessage(m: seq<Byte>, data: seq<Byte>, base: nat)
    requires base <= |m|
    ensures (m + data)[..base] == m[..base]
    ensures data == (m + data)[|m + data| - |data|..]
    ensures data == [] ==> m + data == m
  {
  }

  /** The block under construction when `copy` bytes of `data` follow `m`. */
  lemma StartOf(m: seq<Byte>, data: seq<Byte>, copy: nat)
    requires copy <= |data|
    ensures m[Whole(m)..] + data[..copy] == (m + data)[Whole(m)..|m| + copy]
  {
  }

  lemma WholeIs(m: seq<Byte>, n: nat)
    requires OnBoundary(n) && n <= |m| < n + 64
    ensures Whole(m) == n
  {
    Shift64(|m| - n, n / 64);
  }

  lemma NextBoundary(n: nat)
    requires OnBoundary(n)
    ensures OnBoundary(n + 64)
  {
  }

  lemma BlockOfTail(m: seq<Byte>, data: seq<Byte>, p: nat)
    requires p + 64 <= |data| <= |m| && data == m[|m| - |data|..]
    ensures data[p..p + 64] == m[|m| - |data| + p..|m| - |data| + p + 64]
  {
  }

  class Md5State {
    var count0: nat
    var count1: nat
    var abcd: Abcd
    const buf: array<Byte>
    /** Everything appended so far. */
    ghost var message: seq<Byte>

    /** `md5_process`. */
    const f: BlockFunction

    ghost predicate Valid()
      reads this, buf
    {
      && buf.Length == 64
      && Counts(count0, count1, 8 * |message|)
      && abcd == Blocks(f, INIT, message[..Whole(message)])
      && buf[..|message| - Whole(message)] == message[Whole(message)..]
    }

    constructor (f: BlockFunction)
      ensures Valid() && message == [] && fresh(buf) && this.f == f
    {
      this.f := f;
      buf := new Byte[64];
      count0, count1 := 0, 0;
      abcd := INIT;
      message := [];
    }

    method AddCount(nbytes: nat)
      requires Counts(count0, count1, 8 * |message|)
      modifies this`count0, this`count1
      ensures Counts(count0, count1, 8 * (|message| + nbytes))
    {
      ghost var c0, c1 := count0, count1;
      var nbits := nbytes * 8 % WORD;
      count1 := (count1 + nbytes / 0x2000_0000 % WORD) % WORD;
      count0 := (count0 + nbits) % WORD;
      if count0 < nbits {
        count1 := (count1 + 1) % WORD;
      }
      CounterAdds(c0, c1, |message|, nbytes, count0, count1);
    }

    method ProcessBlock(block: seq<Byte>, ghost m: seq<Byte>, ghost pos: nat)
      requires |block| == 64 && OnBoundary(pos) && pos + 64 <= |m| && block == m[pos..pos + 64]
      requires abcd == Blocks(f, INIT, m[..pos])
      modifies this`abcd
      ensures abcd == Blocks(f, INIT, m[..pos + 64])
    {
      NextBlock(f, m, pos);
      abcd := f(abcd, block);
    }

    /** `md5_append`. */
    method Append(data: seq<Byte>)
      requires Valid()
      modifies this, buf
      ensures Valid() && message == old(message) + data
    {
      hide Counts, Blocks, Whole, OnBoundary;
      var offset := Offset();
      ghost var m, base := message + data, Whole(message);
      LongerMessage(message, data, base);
      if |data| == 0 {
        return;
      }
      AddCount(|data|);
      message := m;

      var p := 0;
      if offset != 0 {
        var full;
        p, full := FinishBlock(data, offset, old(message), base);
        if !full {
          return;
        }
      }
      AppendRest(data, p);
    }

    /** The initial partial block: fills the buffer and processes it if it is full. */
    method FinishBlock(data: seq<Byte>, offset: nat, ghost before: seq<Byte>, ghost base: nat)
      returns (copy: nat, full: bool)
      requires buf.Length == 64 && Counts(count0, count1, 8 * |message|) && message == before + data
      requires OnBoundary(base) && base <= |before| && offset == |before| - base < 64
      requires abcd == Blocks(f, INIT, message[..base]) && buf[..offset] == before[base..]
      modifies this`abcd, buf
      ensures !full ==> Valid()
      ensures full ==>
                && copy <= |data| && offset + copy == 64 && OnBoundary(base + 64)
                && abcd == Blocks(f, INIT, message[..base + 64])
    {
      hide Counts, Blocks, Whole, OnBoundary;
      copy := if offset + |data| > 64 then 64 - offset else |data|;
      WholeIs(before, base);
      FillBuffer(offset, data[..copy]);
      StartOf(before, data, copy);
      full := offset + copy == 64;
      if full {
        ProcessBlock(buf[..], message, base);
        NextBoundary(base);
      } else {
        WholeIs(message, base);
      }
    }

    method Offset() returns (offset: nat)
      requires Valid()
      ensures offset == |message| - Whole(message)
    {
      CounterGivesFill(count0, count1, message);
      offset := count0 / 8 % 64;
    }

    method FillBuffer(offset: nat, bytes: seq<Byte>)
      requires buf.Length == 64 && offset + |bytes| <= 64
      modifies buf
      ensures buf[..offset + |bytes|] == old(buf[..offset]) + bytes
    {
      forall k | 0 <= k < |bytes| {
        buf[offset + k] := bytes[k];
      }
    }

    /** The loop over full blocks and the final partial block. */
    method AppendRest(data: seq<Byte>, start: nat)
      requires buf.Length == 64 && Counts(count0, count1, 8 * |message|)
      requires start <= |data| <= |message| && data == message[|message| - |data|..]
      requires OnBoundary(|message| - |data| + start)
      requires abcd == Blocks(f, INIT, message[..|message| - |data| + start])
      modifies this`abcd, buf
      ensures Valid()
    {
      hide Counts, Blocks, Whole, OnBoundary;
      var p, left := start, |data| - start;
      while left >= 64
        invariant 0 <= left && p + left == |data| && OnBoundary(|message| - left)
        invariant abcd == Blocks(f, INIT, message[..|message| - left])
      {
        BlockOfTail(message, data, p);
        ProcessBlock(data[p..p + 64], message, |message| - left);
        NextBoundary(|message| - left);
        p, left := p + 64, left - 64;
      }
      WholeIs(message, |message| - left);
      FillBuffer(0, data[p..]);
    }

    /** `md5_finish`: the digest of everything appended; no partial block is left. */
    method Finish() returns (digest: seq<Byte>)
      requires Valid()
      modifies this, buf
      ensures Valid() && message == Padded(old(message)) && Whole(message) == |message|
      ensures digest == OneShot(f, old(message))
    {
      hide Blocks, ZeroPadded, Le32, LengthBytes, Counts, Whole, OnBoundary, Digest, PAD;
      ghost var m := message;
      var data := Le32(count0) + Le32(count1);
      CounterIsLength(count0, count1, m);
      PadLength(count0, count1, |m|);
      var n := (55 - count0 / 8) % 64;
      PadIsZeroPadded(m, n);
      Append(PAD[..n + 1]);
      Append(data);
      assert message == Padded(m);
      PaddedIsWhole(m);
      WholeIs(message, |message|);
      assert message[..|message|] == message;
      digest := Digest(abcd);
    }
  }

  /** Any way of cutting a message into chunks gives the one-shot digest. */
  method DigestChunks(f: BlockFunction, chunks: seq<seq<Byte>>) returns (digest: seq<Byte>)
    ensures digest == OneShot(f, Concat(chunks))
  {
    hide OneShot;
    var state := new Md5State(f);
    var i := 0;
    assert chunks[..0] == [];
    while i < |chunks|
      invariant i <= |chunks|
      invariant fresh(state) && fresh(state.buf) && state.Valid() && state.f == f
      invariant state.message == Concat(chunks[..i])
    {
      state.Append(chunks[i]);
      ConcatSnoc(chunks[..i], chunks[i]);
      assert chunks[..i + 1] == chunks[..i] + [chunks[i]];
      i := i + 1;
    }
    assert chunks[..i] == chunks;
    digest := state.Finish();
  }

  /** MD5: the digest of section 3 of RFC 1321, for any way of cutting the message. */
  method Md5Sum(chunks: seq<seq<Byte>>) returns (digest: seq<Byte>)
    ensures digest == OneShot(Process, Concat(chunks))
  {
    digest := DigestChunks(Process, chunks);
  }

  lemma CounterIsLength(count0: nat, count1: nat, m: seq<Byte>)
    requires Counts(count0, count1, 8 * |m|)
    ensures Le32(count0) + Le32(count1) == LengthBytes(m)
  {
    var n := 8 * |m|;
    var q := n / DWORD;
    assert n == q * DWORD + count1 * WORD + count0;
    var h := q * WORD + count1;
    assert n == h * WORD + count0;
    assert n % WORD == count0 && n / WORD == h && h % WORD == count1;
  }

  lemma PadLength(count0: nat, count1: nat, n: nat)
    requires Counts(count0, count1, 8 * n)
    ensures (55 - count0 / 8) % 64 == (55 - n) % 64
  {
    CounterGivesOffset(count0, count1, n);
    SubMod(count0 / 8, n);
  }

  lemma SubMod(a: nat, b: nat)
    requires a % 64 == b % 64
    ensures (55 - a) % 64 == (55 - b) % 64
  {
    Shift64(55 - b, b / 64 - a / 64);
  }
}
