/** The start-code scanner of rtsp-server/xop/Nal.cpp.

    A pointer pair [p, end) of the program is the byte sequence between the two
    pointers, so an index outside the sequence is a read outside the buffer. */
module StartCode {
  import opened Bytes

  /** The three bytes 00 00 01 stand at position q. */
  predicate CodeAt(s: seq<Byte>, q: nat) {
    q + 3 <= |s| && s[q] == 0 && s[q + 1] == 0 && s[q + 2] == 1
  }

  /** Byte-by-byte search from position i. Like the program, it ignores a code
      that is not followed by at least one byte. */
  function NaiveSearch(s: seq<Byte>, i: nat): (q: nat)
    requires i <= |s|
    ensures i <= q <= |s|
    decreases |s| - i
  {
    if i + 3 >= |s| then |s|
    else if CodeAt(s, i) then i
    else NaiveSearch(s, i + 1)
  }

  /** The search result is the least code that a byte follows, and the end of
      the sequence exactly when there is none. */
  lemma {:induction false} NaiveSearchIsLeast(s: seq<Byte>, i: nat)
    requires i <= |s|
    ensures var q := NaiveSearch(s, i);
            && (forall k :: i <= k < q && k + 3 < |s| ==> !CodeAt(s, k))
            && (q < |s| ==> CodeAt(s, q) && q + 3 < |s|)
    decreases |s| - i
  {
    if i + 3 < |s| && !CodeAt(s, i) {
      NaiveSearchIsLeast(s, i + 1);
    }
  }

  /** Anything that meets the description of the least code is the result. */
  lemma {:induction false} NaiveSearchUnique(s: seq<Byte>, i: nat, q: nat)
    requires i <= q <= |s|
    requires forall k :: i <= k < q && k + 3 < |s| ==> !CodeAt(s, k)
    requires q < |s| ==> CodeAt(s, q) && q + 3 < |s|
    ensures NaiveSearch(s, i) == q
    decreases |s| - i
  {
    if i + 3 < |s| && i < q {
      NaiveSearchUnique(s, i + 1, q);
    }
  }

  /** The bit trick that flags a word with a zero byte. */
  predicate HasZeroByte(x: bv32) {
    (x - 0x01010101) & !x & 0x80808080 != 0
  }

  /** The trick is exact: it fires if and only if one of the bytes is zero. */
  lemma HasZeroByteExact(a: Byte, b: Byte, c: Byte, d: Byte)
    ensures HasZeroByte(Word(a, b, c, d)) <==> a == 0 || b == 0 || c == 0 || d == 0
  {
    var x := Word(a, b, c, d);
    assert (a as bv32) == x & 0xff;
  }

  /** Word-at-a-time scan. `addr` is the address of the first byte: it decides
      where the aligned words begin. */
  method FFmpegFindStartcodeInternal(s: seq<Byte>, addr: nat) returns (q: nat)
    ensures q == NaiveSearch(s, 0)
  {
    hide Word, HasZeroByte;
    var p: int := 0;
    var end: int := |s|;
    var a := 4 - addr % 4;

    end := end - 3;
    while p < a && p < end
      invariant 0 <= p <= a
      invariant end == |s| - 3 && (p <= end || p == 0)
      invariant forall k :: 0 <= k < p ==> !CodeAt(s, k)
    {
      if s[p] == 0 && s[p + 1] == 0 && s[p + 2] == 1 {
        NaiveSearchUnique(s, 0, p);
        return p;
      }
      p := p + 1;
    }

    end := end - 3;
    while p < end
      invariant 0 <= p && end == |s| - 6
      invariant p <= end + 3 || p == 0
      invariant p < end ==> (addr + p) % 4 == 0
      invariant forall k :: 0 <= k < p ==> !CodeAt(s, k)
    {
      assert (addr + p) % 4 == 0;
      var x := Word(s[p], s[p + 1], s[p + 2], s[p + 3]);
      HasZeroByteExact(s[p], s[p + 1], s[p + 2], s[p + 3]);
      if HasZeroByte(x) {
        if s[p + 1] == 0 {
          if s[p] == 0 && s[p + 2] == 1 {
            NaiveSearchUnique(s, 0, p);
            return p;
          }
          if s[p + 2] == 0 && s[p + 3] == 1 {
            NaiveSearchUnique(s, 0, p + 1);
            return p + 1;
          }
        }
        if s[p + 3] == 0 {
          if s[p + 2] == 0 && s[p + 4] == 1 {
            NaiveSearchUnique(s, 0, p + 2);
            return p + 2;
          }
          if s[p + 4] == 0 && s[p + 5] == 1 {
            NaiveSearchUnique(s, 0, p + 3);
            return p + 3;
          }
        }
      }
      p := p + 4;
    }

    end := end + 3;
    while p < end
      invariant 0 <= p && end == |s| - 3
      invariant forall k :: 0 <= k < p && k + 3 < |s| ==> !CodeAt(s, k)
    {
      if s[p] == 0 && s[p + 1] == 0 && s[p + 2] == 1 {
        NaiveSearchUnique(s, 0, p);
        return p;
      }
      p := p + 1;
    }

    NaiveSearchUnique(s, 0, |s|);
    return end + 3;
  }

  /** Where the zero byte in front of a found code belongs to the code too. */
  function StartOfCode(s: seq<Byte>): (q: nat)
    ensures q <= |s|
  {
    var out := NaiveSearch(s, 0);
    if 0 < out < |s| && s[out - 1] == 0 then out - 1 else out
  }

  method FindStartCode(s: seq<Byte>, addr: nat) returns (out: nat)
    ensures out == StartOfCode(s)
  {
    out := FFmpegFindStartcodeInternal(s, addr);
    if 0 < out && out < |s| && s[out - 1] == 0 {
      out := out - 1;
    }
  }
}
