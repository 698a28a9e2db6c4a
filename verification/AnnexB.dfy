/** The Annex B splitter of rtsp-server/xop/Nal.cpp and the two-pass list
    construction of rtsp-server/xop/Nal.h. */
module AnnexB {
  import opened Bytes
  import opened StartCode

  // ---------------------------------------------------------------------------
  // What the splitter computes
  // ---------------------------------------------------------------------------

  /** `while (nal_start < end && !*nal_start++)`: past the first non-zero byte,
      or to the end. */
  function SkipCode(s: seq<Byte>, i: nat): (b: nat)
    requires i <= |s|
    ensures i <= b <= |s|
    ensures i < |s| ==> i < b
    decreases |s| - i
  {
    if i == |s| then i
    else if s[i] != 0 then i + 1
    else SkipCode(s, i + 1)
  }

  /** The NAL units the splitter reports when its cursor stands before `s`. */
  function SplitFrom(s: seq<Byte>): (units: seq<seq<Byte>>)
    decreases |s|
  {
    var b := SkipCode(s, 0);
    if b == |s| then []
    else
      var rest := s[b..];
      var e := StartOfCode(rest);
      [rest[..e]] + SplitFrom(rest[e..])
  }

  /** The NAL units the splitter reports for a whole buffer. */
  function Split(data: seq<Byte>): seq<seq<Byte>> {
    SplitFrom(data[StartOfCode(data)..])
  }

  // ---------------------------------------------------------------------------
  // The byte stream format
  // ---------------------------------------------------------------------------

  datatype Prefix = Three | Four {
    function Bytes(): seq<Byte> {
      if Three? then [0, 0, 1] else [0, 0, 0, 1]
    }
  }

  /** A NAL unit with the start code in front of it. */
  datatype Framed = Framed(prefix: Prefix, nal: seq<Byte>)

  function Join(frames: seq<Framed>): seq<Byte> {
    if frames == [] then [] else frames[0].prefix.Bytes() + frames[0].nal + Join(frames[1..])
  }

  function Nals(frames: seq<Framed>): (nals: seq<seq<Byte>>)
    ensures |nals| == |frames|
    ensures forall i :: 0 <= i < |frames| ==> nals[i] == frames[i].nal
  {
    seq(|frames|, i requires 0 <= i < |frames| => frames[i].nal)
  }

  predicate NoCode(nal: seq<Byte>) {
    forall k :: 0 <= k && k + 3 <= |nal| ==> !CodeAt(nal, k)
  }

  predicate EndsInZero(nal: seq<Byte>) {
    nal != [] && nal[|nal| - 1] == 0
  }

  /** What the frames must satisfy to survive joining and splitting: no unit but
      the last contains 00 00 01, and none ends in 00 before a three-byte code;
      the last is non-empty and has no 00 00 01 with a byte behind it. */
  predicate Splittable(frames: seq<Framed>) {
    if frames == [] then true
    else if |frames| == 1 then frames[0].nal != [] && NaiveSearch(frames[0].nal, 0) == |frames[0].nal|
    else
      && NoCode(frames[0].nal)
      && (frames[1].prefix.Three? ==> !EndsInZero(frames[0].nal))
      && Splittable(frames[1..])
  }

  // ---------------------------------------------------------------------------
  // Join and split are inverse
  // ---------------------------------------------------------------------------

  lemma SkipPrefix(p: Prefix, rest: seq<Byte>)
    ensures SkipCode(p.Bytes() + rest, 0) == |p.Bytes()|
  {
    var s := p.Bytes() + rest;
    assert SkipCode(s, 0) == SkipCode(s, 1) == SkipCode(s, 2);
    assert p.Four? ==> SkipCode(s, 2) == SkipCode(s, 3);
  }

  lemma SplitStops(s: seq<Byte>)
    requires SkipCode(s, 0) == |s|
    ensures SplitFrom(s) == []
  {
  }

  /** One round of the splitter behind a start code. */
  lemma SplitRound(p: Prefix, rest: seq<Byte>)
    requires rest != []
    ensures var e := StartOfCode(rest);
            SplitFrom(p.Bytes() + rest) == [rest[..e]] + SplitFrom(rest[e..])
  {
    SkipPrefix(p, rest);
    assert (p.Bytes() + rest)[|p.Bytes()|..] == rest;
  }

  /** Where the next unit is cut: exactly at the end of `nal` when `nal` has no
      code of its own and no zero that the next code would swallow. A code with
      nothing behind it does not count. */
  lemma CutAtNextCode(nal: seq<Byte>, p: Prefix, tail: seq<Byte>)
    ensures StartOfCode(nal + p.Bytes() + tail) == |nal| <==>
            tail != [] && NoCode(nal) && (p.Three? ==> !EndsInZero(nal))
  {
    var u := nal + p.Bytes() + tail;
    var q := NaiveSearch(u, 0);
    NaiveSearchIsLeast(u, 0);
    if k :| 0 <= k && k + 3 <= |nal| && CodeAt(nal, k) {
      assert CodeAt(u, k) && k + 3 < |u|;
      assert q <= k;
    } else {
      var c := |nal| + (if p.Three? then 0 else 1);
      assert CodeAt(u, c);
      forall k | 0 <= k < c
        ensures !CodeAt(u, k)
      {
        if k + 3 <= |nal| {
          assert !CodeAt(nal, k);
        } else {
          assert u[k + 2] == 0 || k + 2 >= |u|;
        }
      }
      assert tail != [] ==> q == c;
    }
  }

  /** Two joins that do not split back: a unit that ends in 00 loses that byte to the
      three-byte code behind it, and a start code that ends the buffer is taken for
      bytes of the unit in front of it. */
  lemma JoinsThatDoNotSplit()
    ensures var zero := [Framed(Three, [0x65, 0]), Framed(Three, [0x41])];
            Split(Join(zero)) != Nals(zero)
    ensures var open := [Framed(Three, [0x65]), Framed(Three, [])];
            Split(Join(open)) != Nals(open)
  {
    hide Split, Join, Nals;
    var zero := [Framed(Three, [0x65, 0]), Framed(Three, [0x41])];
    var open := [Framed(Three, [0x65]), Framed(Three, [])];
    assert !Splittable(zero) && !Splittable(open);
    JoinThenSplit(zero);
    JoinThenSplit(open);
  }

  /** Joining and then splitting gives the same units back if and only if the
      frames are splittable. */
  lemma JoinThenSplit(frames: seq<Framed>)
    ensures Split(Join(frames)) == Nals(frames) <==> Splittable(frames)
  {
    JoinStartsAtCode(frames);
    JoinThenSplitFrom(frames);
  }

  lemma JoinCons(frames: seq<Framed>)
    requires frames != []
    ensures Join(frames) == frames[0].prefix.Bytes() + (frames[0].nal + Join(frames[1..]))
  {
    hide Prefix.Bytes;
    Regroup(frames[0].prefix.Bytes(), frames[0].nal, Join(frames[1..]));
  }

  lemma JoinStartsAtCode(frames: seq<Framed>)
    ensures Split(Join(frames)) == SplitFrom(Join(frames))
  {
    hide SplitFrom, StartOfCode, Prefix.Bytes;
    if frames == [] {
      var s := Join(frames);
      assert s[StartOfCode(s)..] == s;
    } else {
      JoinCons(frames);
      StartsAtCode(frames[0].prefix, frames[0].nal + Join(frames[1..]));
    }
  }

  lemma StartsAtCode(p: Prefix, tail: seq<Byte>)
    ensures Split(p.Bytes() + tail) == SplitFrom(p.Bytes() + tail)
  {
    hide SplitFrom, NaiveSearch;
    var s := p.Bytes() + tail;
    if tail == [] {
      CodeAlone(p);
      SplitNothing();
      NaiveSearchUnique(s, 0, |s|);
      assert s[|s|..] == [];
    } else {
      assert s == [] + p.Bytes() + tail;
      CutAtNextCode([], p, tail);
      assert s[0..] == s;
    }
  }

  lemma SplitNothing()
    ensures SplitFrom([]) == []
  {
  }

  lemma {:induction false} JoinThenSplitFrom(frames: seq<Framed>)
    ensures SplitFrom(Join(frames)) == Nals(frames) <==> Splittable(frames)
  {
    hide SplitFrom, Nals, NaiveSearch, Prefix.Bytes, NoCode, EndsInZero;
    SplitNothing();
    if frames == [] {
      NoFrames();
    } else {
      var p, nal, more := frames[0].prefix, frames[0].nal, frames[1..];
      JoinCons(frames);
      NalsCons(frames);
      if more == [] {
        NoFrames();
        assert nal + [] == nal && [nal] + [] == [nal];
        OneUnit(p, nal);
      } else {
        JoinThenSplitFrom(more);
        FirstOfMany(p, nal, more);
      }
    }
  }

  lemma NoFrames()
    ensures Join([]) == [] && Nals([]) == [] && SplitFrom([]) == []
  {
    SplitNothing();
  }

  /** The first unit is cut off at its end, and the rest splits back by itself. */
  lemma FirstOfMany(p: Prefix, nal: seq<Byte>, more: seq<Framed>)
    requires more != [] && (SplitFrom(Join(more)) == Nals(more) <==> Splittable(more))
    ensures SplitFrom(p.Bytes() + (nal + Join(more))) == [nal] + Nals(more) <==>
            NoCode(nal) && (more[0].prefix.Three? ==> !EndsInZero(nal)) && Splittable(more)
  {
    hide SplitFrom, StartOfCode, SkipCode, Nals, NaiveSearch, NoCode, EndsInZero;
    var rest := nal + Join(more);
    var q, tail := more[0].prefix, more[0].nal + Join(more[1..]);
    JoinCons(more);
    Regroup(nal, q.Bytes(), tail);
    SplitRound(p, rest);
    CutAtNextCode(nal, q, tail);
    Recut(nal, Join(more), StartOfCode(rest), Nals(more));
    if tail == [] {
      assert more[1..] == [];
    }
  }

  lemma NalsCons(frames: seq<Framed>)
    requires frames != []
    ensures Nals(frames) == [frames[0].nal] + Nals(frames[1..])
  {
  }

  lemma CodeAlone(p: Prefix)
    ensures SplitFrom(p.Bytes() + []) == []
  {
    SkipPrefix(p, []);
  }

  lemma OneUnit(p: Prefix, nal: seq<Byte>)
    ensures SplitFrom(p.Bytes() + nal) == [nal] <==> nal != [] && NaiveSearch(nal, 0) == |nal|
  {
    hide SplitFrom, NaiveSearch;
    SplitNothing();
    if nal == [] {
      CodeAlone(p);
      return;
    }
    SplitRound(p, nal);
    assert nal + [] == nal;
    Recut(nal, [], StartOfCode(nal), []);
  }

  /** Cutting `nal + more` at e gives `nal` and then `nals` only at e == |nal|. */
  lemma Recut(nal: seq<Byte>, more: seq<Byte>, e: nat, nals: seq<seq<Byte>>)
    requires e <= |nal + more|
    ensures var rest := nal + more;
            [rest[..e]] + SplitFrom(rest[e..]) == [nal] + nals <==> e == |nal| && SplitFrom(more) == nals
  {
    hide SplitFrom;
    var rest := nal + more;
    var cut := [rest[..e]] + SplitFrom(rest[e..]);
    if e == |nal| {
      assert rest[..e] == nal && rest[e..] == more;
      assert cut[1..] == SplitFrom(more) && ([nal] + nals)[1..] == nals;
    } else {
      assert |cut[0]| != |nal|;
    }
  }

  // ---------------------------------------------------------------------------
  // Arbitrary bytes
  // ---------------------------------------------------------------------------

  /** Nothing is left, or a start code with a byte behind it comes next. */
  predicate AtCode(t: seq<Byte>) {
    t == [] || StartsWith(t, Three) || StartsWith(t, Four)
  }

  predicate StartsWith(t: seq<Byte>, p: Prefix) {
    p.Bytes() <= t && |p.Bytes()| < |t|
  }

  lemma CursorAtCode(u: seq<Byte>)
    ensures AtCode(u[StartOfCode(u)..])
  {
    NaiveSearchIsLeast(u, 0);
    var q := NaiveSearch(u, 0);
    if q < |u| {
      var t := u[StartOfCode(u)..];
      if StartOfCode(u) == q {
        assert t[..3] == [0, 0, 1];
      } else {
        assert t[..4] == [0, 0, 0, 1];
      }
    }
  }

  /** How the splitter frames the bytes behind its cursor. */
  function FramesOf(t: seq<Byte>): seq<Framed>
    decreases |t|
  {
    var b := SkipCode(t, 0);
    if b == |t| then []
    else
      var rest := t[b..];
      var e := StartOfCode(rest);
      [Framed(if b == 4 then Four else Three, rest[..e])] + FramesOf(rest[e..])
  }

  /** Splitting loses nothing: on arbitrary bytes the units, with exactly one
      start code in front of each, are the buffer from its first code on. */
  lemma SplitThenJoin(data: seq<Byte>)
    ensures var t := data[StartOfCode(data)..];
            && Join(FramesOf(t)) == t
            && Nals(FramesOf(t)) == Split(data)
            && Splittable(FramesOf(t))
  {
    CursorAtCode(data);
    SplitThenJoinFrom(data[StartOfCode(data)..]);
    JoinThenSplitFrom(FramesOf(data[StartOfCode(data)..]));
  }

  lemma {:induction false} SplitThenJoinFrom(t: seq<Byte>)
    requires AtCode(t)
    ensures Join(FramesOf(t)) == t
    ensures Nals(FramesOf(t)) == SplitFrom(t)
    decreases |t|
  {
    hide SplitFrom, FramesOf, AtCode, Prefix.Bytes;
    if t == [] {
      SplitNothing();
      FramesOfNothing();
    } else {
      var p, rest := CodeAndRest(t);
      var e := StartOfCode(rest);
      var first, more := Framed(p, rest[..e]), FramesOf(rest[e..]);
      FramesRound(p, rest);
      SplitRound(p, rest);
      CursorAtCode(rest);
      SplitThenJoinFrom(rest[e..]);
      NalsCons([first] + more);
      JoinCons([first] + more);
      assert ([first] + more)[1..] == more;
      assert rest == rest[..e] + rest[e..];
    }
  }

  lemma FramesOfNothing()
    ensures FramesOf([]) == []
  {
  }

  lemma FramesRound(p: Prefix, rest: seq<Byte>)
    requires rest != []
    ensures var e := StartOfCode(rest);
            FramesOf(p.Bytes() + rest) == [Framed(p, rest[..e])] + FramesOf(rest[e..])
  {
    hide StartOfCode;
    SkipPrefix(p, rest);
    assert (p.Bytes() + rest)[|p.Bytes()|..] == rest;
  }

  lemma CodeAndRest(t: seq<Byte>) returns (p: Prefix, rest: seq<Byte>)
    requires AtCode(t) && t != []
    ensures t == p.Bytes() + rest && rest != [] && rest == t[|p.Bytes()|..]
  {
    p := if StartsWith(t, Three) then Three else Four;
    rest := t[|p.Bytes()|..];
  }

  // ---------------------------------------------------------------------------
  // The program
  // ---------------------------------------------------------------------------

  /** What a callback is handed: a position in the buffer and a size. */
  datatype Unit = Unit(start: nat, size: nat) {
    predicate In(data: seq<Byte>) {
      start + size <= |data|
    }

    function Bytes(data: seq<Byte>): seq<Byte>
      requires In(data)
    {
      data[start..start + size]
    }
  }

  ghost predicate AreUnits(data: seq<Byte>, units: seq<Unit>, contents: seq<seq<Byte>>) {
    && |units| == |contents|
    && (forall i :: 0 <= i < |units| ==> units[i].In(data) && units[i].Bytes(data) == contents[i])
  }

  /** Between two neighbours lies exactly one start code. */
  ghost predicate OneCodeBetween(data: seq<Byte>, units: seq<Unit>) {
    forall i :: 0 < i < |units| ==>
      OneCode(data, units[i - 1].start + units[i - 1].size, units[i].start)
  }

  ghost predicate OneCode(data: seq<Byte>, from: nat, to: nat) {
    from <= to <= |data| && (data[from..to] == Three.Bytes() || data[from..to] == Four.Bytes())
  }

  lemma EmptyLists(data: seq<Byte>)
    ensures AreUnits(data, [], []) && OneCodeBetween(data, [])
  {
  }

  lemma UnitAt(data: seq<Byte>, start: nat, size: nat)
    requires start + size <= |data|
    ensures var unit := Unit(start, size);
            unit.In(data) && unit.Bytes(data) == data[start..start + size]
  {
  }

  method PassCode(s: seq<Byte>) returns (p: nat)
    ensures p == SkipCode(s, 0)
  {
    p := 0;
    var zero := true;
    while p < |s| && zero
      invariant p <= |s|
      invariant SkipCode(s, 0) == if zero then SkipCode(s, p) else p
    {
      zero := s[p] == 0;
      p := p + 1;
    }
  }

  lemma AreUnitsSnoc(data: seq<Byte>, units: seq<Unit>, contents: seq<seq<Byte>>, unit: Unit)
    requires AreUnits(data, units, contents) && unit.In(data)
    ensures AreUnits(data, units + [unit], contents + [unit.Bytes(data)])
  {
  }

  ghost function EndOf(units: seq<Unit>): nat {
    if units == [] then 0 else units[|units| - 1].start + units[|units| - 1].size
  }

  lemma OneCodeSnoc(data: seq<Byte>, units: seq<Unit>, unit: Unit)
    requires OneCodeBetween(data, units)
    requires units != [] ==> OneCode(data, EndOf(units), unit.start)
    ensures OneCodeBetween(data, units + [unit])
  {
    hide OneCode;
  }

  /** One round of the splitter, in positions of the buffer. */
  lemma RoundAt(data: seq<Byte>, code: nat, start: nat, size: nat)
    requires code <= start < |data| && AtCode(data[code..])
    requires start == code + SkipCode(data[code..], 0)
    requires size == StartOfCode(data[start..])
    ensures SplitFrom(data[code..]) == [data[start..start + size]] + SplitFrom(data[start + size..])
    ensures AtCode(data[start + size..]) && OneCode(data, code, start)
  {
    hide SplitFrom, StartOfCode, SkipCode, AtCode, Prefix.Bytes;
    var p, rest := CodeAndRest(data[code..]);
    SkipPrefix(p, rest);
    SplitRound(p, rest);
    assert rest == data[start..];
    CursorAtCode(rest);
    assert rest[..size] == data[start..start + size];
    assert rest[size..] == data[start + size..];
    assert data[code..start] == data[code..][..start - code] == p.Bytes();
    assert p == Three || p == Four;
  }

  /** `accept(k)` is what the callback answers on its k-th call. */
  method NalUnitWhile(data: seq<Byte>, addr: nat, accept: nat -> bool) returns (units: seq<Unit>, ok: bool)
    ensures |units| <= |Split(data)| && AreUnits(data, units, Split(data)[..|units|])
    ensures OneCodeBetween(data, units)
    ensures ok ==> |units| == |Split(data)| && forall k :: 0 <= k < |units| ==> accept(k)
    ensures !ok ==> units != [] && !accept(|units| - 1) && forall k :: 0 <= k < |units| - 1 ==> accept(k)
  {
    hide SplitFrom, StartOfCode, SkipCode, AtCode, OneCode, OneCodeBetween, AreUnits, Unit.In, Unit.Bytes;
    units := [];
    EmptyLists(data);
    if |data| == 0 {
      assert data[StartOfCode(data)..] == [];
      SplitNothing();
      return units, true;
    }
    var end := |data|;
    var nal_start := FindStartCode(data, addr);
    CursorAtCode(data);
    ghost var done: seq<seq<Byte>> := [];
    while true
      invariant nal_start <= end
      invariant AtCode(data[nal_start..])
      invariant |units| == |done| && AreUnits(data, units, done)
      invariant Split(data) == done + SplitFrom(data[nal_start..])
      invariant OneCodeBetween(data, units)
      invariant units != [] ==> EndOf(units) == nal_start
      invariant forall k :: 0 <= k < |units| ==> accept(k)
      decreases end - nal_start
    {
      ghost var code := nal_start;
      var b := PassCode(data[nal_start..]);
      nal_start := nal_start + b;
      if nal_start == end {
        SplitStops(data[code..]);
        break;
      }
      var size := FindStartCode(data[nal_start..], addr + nal_start);
      RoundAt(data, code, nal_start, size);
      var unit := Unit(nal_start, size);
      UnitAt(data, nal_start, size);
      AreUnitsSnoc(data, units, done, unit);
      OneCodeSnoc(data, units, unit);
      Regroup(done, [unit.Bytes(data)], SplitFrom(data[nal_start + size..]));
      done := done + [unit.Bytes(data)];
      units := units + [unit];
      if !accept(|units| - 1) {
        assert Split(data)[..|units|] == done;
        return units, false;
      }
      nal_start := nal_start + size;
    }
    assert Split(data) == done == Split(data)[..|units|];
    return units, true;
  }

  method GetNalUnitCount(data: seq<Byte>, addr: nat) returns (count: nat)
    ensures count == |Split(data)|
  {
    var units, ok := NalUnitWhile(data, addr, k => true);
    count := |units|;
  }

  /** The constructor of `Nal`: a counting pass sizes the list and a second pass
      fills it. The fill callback stores before it compares its iterator with
      the end, so the store is in bounds only because both passes agree. */
  method BuildList(data: seq<Byte>, addr: nat) returns (list: array<seq<Byte>>)
    ensures fresh(list) && list[..] == Split(data)
  {
    var count := GetNalUnitCount(data, addr);
    list := new seq<Byte>[count](_ => []);
    var calls, _ := NalUnitWhile(data, addr, k => k != count);
    var it := 0;
    while it < |calls|
      invariant 0 <= it <= |calls|
      invariant list[..it] == Split(data)[..it]
    {
      list[it] := calls[it].Bytes(data);
      it := it + 1;
    }
  }
}
