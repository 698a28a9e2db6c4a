/** A receiver that follows section 5 of RFC 6184 and section 4.4 of RFC 7798,
    and the proof that it undoes the packetizers. */
module Depacketizer {
  import opened Bytes
  import opened Wrappers
  import opened Payload

  datatype Parsed =
    | Single(nal: Nal)
    | Group(nals: seq<Nal>)
    | Piece(first: bool, last: bool, header: seq<Byte>, body: seq<Byte>)
    | Malformed

  /** The units of an aggregation packet behind its payload header. */
  function ParseEntries(c: Codec, s: seq<Byte>): Option<seq<Nal>>
    decreases |s|
  {
    if s == [] then Some([])
    else if |s| < 2 then Option.None
    else
      var n := ReadBe16(s[0], s[1]);
      if n < c.HeaderSize() || |s| < 2 + n then Option.None
      else match ParseEntries(c, s[2 + n..])
        case None => Option.None
        case Some(more) => Some([s[2..2 + n]] + more)
  }

  function ParsePiece(flags: Byte, header: seq<Byte>, body: seq<Byte>): Parsed {
    var first, last := flags & 0x80 != 0, flags & 0x40 != 0;
    if first && last then Malformed else Piece(first, last, header, body)
  }

  function Parse(c: Codec, p: seq<Byte>): Parsed {
    if |p| < c.HeaderSize() then Malformed
    else
      var t := c.GetType(p);
      match c
      case H264 =>
        if 1 <= t <= 23 then Single(p)
        else if t == 24 then ParseGroup(c, p[1..])
        else if t == 28 && |p| >= 2 then
          ParsePiece(p[1], [(p[0] & 0xe0) | (p[1] & 0x1f)], p[2..])
        else Malformed
      case H265 =>
        if t < 48 then Single(p)
        else if t == 48 then ParseGroup(c, p[2..])
        else if t == 49 && |p| >= 3 then
          ParsePiece(p[2], [(p[0] & 0x81) | ((p[2] & 0x3f) << 1), p[1]], p[3..])
        else Malformed
  }

  /** An aggregation packet of RFC 7798 carries at least two units. */
  function ParseGroup(c: Codec, s: seq<Byte>): Parsed {
    match ParseEntries(c, s)
    case None => Malformed
    case Some(nals) => if |nals| < (if c.H264? then 1 else 2) then Malformed else Group(nals)
  }

  function Prepend(nals: seq<Nal>, more: Option<seq<Nal>>): Option<seq<Nal>> {
    match more
    case None => Option.None
    case Some(rest) => Some(nals + rest)
  }

  /** The units carried by a run of packets, or None when the run breaks the
      format. `partial` is the unit under reassembly. */
  function Depacketize(c: Codec, packets: seq<Packet>, partial: Option<Nal>): Option<seq<Nal>> {
    if packets == [] then
      if partial.None? then Some([]) else Option.None
    else
      match Parse(c, packets[0].payload)
      case Single(nal) =>
        if partial.None? then Prepend([nal], Depacketize(c, packets[1..], Option.None)) else Option.None
      case Group(nals) =>
        if partial.None? then Prepend(nals, Depacketize(c, packets[1..], Option.None)) else Option.None
      case Piece(first, last, header, body) =>
        if first != partial.None? then Option.None
        else
          var unit := (if first then header else partial.value) + body;
          if last then Prepend([unit], Depacketize(c, packets[1..], Option.None))
          else Depacketize(c, packets[1..], Some(unit))
      case Malformed => Option.None
  }

  // ---------------------------------------------------------------------------
  // Each packet parses back
  // ---------------------------------------------------------------------------

  lemma {:induction false} EntriesParse(c: Codec, group: seq<Nal>)
    requires forall nal :: nal in group ==> c.HeaderSize() <= |nal| < 0x1_0000
    ensures ParseEntries(c, Entries(group)) == Some(group)
  {
    hide Be16, ReadBe16, ParseEntries;
    if group == [] {
      NoEntries(c);
    } else {
      var nal := group[0];
      SizeReadsBack(nal);
      EntriesParse(c, group[1..]);
      EntryParses(c, nal, Entries(group[1..]), group[1..]);
      assert group == [nal] + group[1..];
    }
  }

  lemma NoEntries(c: Codec)
    ensures ParseEntries(c, Entries([])) == Some([])
  {
  }

  lemma SizeReadsBack(nal: Nal)
    requires |nal| < 0x1_0000
    ensures ReadBe16(Be16(|nal|)[0], Be16(|nal|)[1]) == |nal|
  {
    hide FromNat, ReadBe16;
    Be16RoundTrip(|nal|);
  }

  lemma EntryParses(c: Codec, nal: Nal, more: seq<Byte>, rest: seq<Nal>)
    requires c.HeaderSize() <= |nal| && ReadBe16(Be16(|nal|)[0], Be16(|nal|)[1]) == |nal|
    requires ParseEntries(c, more) == Some(rest)
    ensures ParseEntries(c, Be16(|nal|) + nal + more) == Some([nal] + rest)
  {
    hide ReadBe16, Be16;
    var s := Be16(|nal|) + nal + more;
    assert s[0] == Be16(|nal|)[0] && s[1] == Be16(|nal|)[1];
    assert s[2..2 + |nal|] == nal && s[2 + |nal|..] == more;
  }

  /** The aggregation header announces an aggregation packet with the forbidden
      bit clear. */
  lemma AggregateHeaderDecodes(c: Codec, group: seq<Nal>, rest: seq<Byte>)
    ensures var p := AggregateHeader(c, group) + rest;
            && c.GetType(p) == (if c.H264? then 24 else 48) && p[0] & 0x80 == 0
            && (c.H264? ==> GetRefIdc(p) == MaxRefIdc(group))
            && (c.H265? ==> GetLayerId(p) == MinLayerId(group) && GetTemporalId(p) == MinTemporalId(group))
  {
    hide MaxRefIdc, MinLayerId, MinTemporalId;
  }

  /** Read through the layout the getters use, the NRI of a STAP-A is the largest
      of its members' (section 5.7.1 of RFC 6184), and the layer id and temporal
      id of an AP are the lowest of its members' (section 4.4.2 of RFC 7798). */
  lemma AggregateHeaderSummarizes(c: Codec, group: seq<Nal>)
    requires group != []
    ensures var p := Aggregate(c, group).payload;
            && (c.H264? ==>
                  && (forall nal :: nal in group ==> GetRefIdc(nal) <= GetRefIdc(p))
                  && (exists nal :: nal in group && GetRefIdc(nal) == GetRefIdc(p)))
            && (c.H265? ==>
                  && (forall nal :: nal in group ==>
                        GetLayerId(p) <= GetLayerId(nal) && GetTemporalId(p) <= GetTemporalId(nal))
                  && (exists nal :: nal in group && GetLayerId(nal) == GetLayerId(p))
                  && (exists nal :: nal in group && GetTemporalId(nal) == GetTemporalId(p)))
  {
    hide MaxRefIdc, MinLayerId, MinTemporalId, GetRefIdc, GetLayerId, GetTemporalId, AggregateHeader, Entries;
    MaxRefIdcIsMax(group);
    MinIdsAreMin(group);
    AggregateHeaderDecodes(c, group, Entries(group));
  }

  lemma AggregateParses(c: Codec, group: seq<Nal>)
    requires |group| >= 2
    requires forall nal :: nal in group ==> c.HeaderSize() <= |nal| < 0x1_0000
    ensures Parse(c, Aggregate(c, group).payload) == Group(group)
  {
    hide Entries, ParseEntries, AggregateHeader;
    var header, entries := AggregateHeader(c, group), Entries(group);
    AggregateHeaderSize(c, group);
    AggregateHeaderDecodes(c, group, entries);
    EntriesParse(c, group);
    assert (header + entries)[c.HeaderSize()..] == entries;
  }

  lemma AggregateHeaderSize(c: Codec, group: seq<Nal>)
    ensures |AggregateHeader(c, group)| == c.HeaderSize()
  {
  }

  /** A fragment parses back to its flags, its bytes and the unit's header. */
  lemma FragmentParses(c: Codec, nal: Nal, first: bool, last: bool, body: seq<Byte>)
    requires |nal| >= c.HeaderSize() && !(first && last)
    ensures Parse(c, FragmentHeader(c, nal, first, last) + body) == Piece(first, last, nal[..c.HeaderSize()], body)
  {
    var p := FragmentHeader(c, nal, first, last) + body;
    var n := c.HeaderSize() + 1;
    assert p[n..] == body;
    if c.H264? {
      assert nal[..1] == [nal[0]];
      H264FragmentBits(nal[0], if first then 0x80 else if last then 0x40 else 0);
    } else {
      assert nal[..2] == [nal[0], nal[1]];
      H265FragmentBits(nal[0], if first then 0x80 else if last then 0x40 else 0);
    }
  }

  lemma H264FragmentBits(b: Byte, flags: Byte)
    requires flags == 0x80 || flags == 0x40 || flags == 0
    ensures ((b & 0xe0) | 28) & 0x1f == 28
    ensures (((b & 0xe0) | 28) & 0xe0) | ((((b & 0x1f) & 0x1f) | flags) & 0x1f) == b
    ensures (((b & 0x1f) & 0x1f) | flags) & 0x80 != 0 <==> flags == 0x80
    ensures (((b & 0x1f) & 0x1f) | flags) & 0x40 != 0 <==> flags == 0x40
  {
  }

  lemma H265FragmentBits(b: Byte, flags: Byte)
    requires flags == 0x80 || flags == 0x40 || flags == 0
    ensures (((b & 0x81) | (49 << 1)) & 0x7e) >> 1 == 49
    ensures var h := (((b & 0x7e) >> 1) & 0x3f) | flags;
            && (((b & 0x81) | (49 << 1)) & 0x81) | ((h & 0x3f) << 1) == b
            && (h & 0x80 != 0 <==> flags == 0x80)
            && (h & 0x40 != 0 <==> flags == 0x40)
  {
  }

  // ---------------------------------------------------------------------------
  // Round trip
  // ---------------------------------------------------------------------------

  /** Reassembly of the fragments of a unit, whatever packets come behind. */
  lemma {:induction false} FragmentsReassemble(c: Codec, nal: Nal, sent: seq<Byte>, body: seq<Byte>, first: bool,
                                                   more: seq<Packet>)
    requires |nal| >= c.HeaderSize()
    requires nal == nal[..c.HeaderSize()] + sent + body
    requires first ==> sent == [] && |body| > ChunkSize(c)
    ensures var partial := if first then Option.None else Some(nal[..c.HeaderSize()] + sent);
            Depacketize(c, Fragments(c, nal, body, first) + more, partial)
            == Prepend([nal], Depacketize(c, more, Option.None))
    decreases |body|
  {
    hide Parse, FragmentHeader;
    var partial := if first then Option.None else Some(nal[..c.HeaderSize()] + sent);
    var packets := Fragments(c, nal, body, first) + more;
    if |body| <= ChunkSize(c) {
      FragmentParses(c, nal, false, true, body);
      assert packets[1..] == more;
    } else {
      var chunk, left := body[..ChunkSize(c)], body[ChunkSize(c)..];
      FragmentParses(c, nal, first, false, chunk);
      assert packets[1..] == Fragments(c, nal, left, false) + more;
      assert body == chunk + left;
      FragmentsReassemble(c, nal, sent + chunk, left, false, more);
      assert nal[..c.HeaderSize()] + sent + chunk == nal[..c.HeaderSize()] + (sent + chunk);
      assert first ==> nal[..c.HeaderSize()] + chunk == nal[..c.HeaderSize()] + (sent + chunk);
    }
  }

  lemma AloneDepacketizes(c: Codec, nal: Nal, more: seq<Packet>)
    requires c.Carries(nal)
    ensures Depacketize(c, Alone(c, nal) + more, Option.None) == Prepend([nal], Depacketize(c, more, Option.None))
  {
    if |nal| <= MAX_RTP_PAYLOAD_SIZE {
      assert (Alone(c, nal) + more)[1..] == more;
    } else {
      hide Fragments;
      assert nal == nal[..c.HeaderSize()] + [] + nal[c.HeaderSize()..];
      FragmentsReassemble(c, nal, [], nal[c.HeaderSize()..], true, more);
    }
  }

  lemma GroupDepacketizes(c: Codec, nals: seq<Nal>, i: nat, more: seq<Packet>)
    requires i < |nals| && GroupEnd(c, nals, i, i) > i
    requires forall nal :: nal in nals ==> c.Carries(nal)
    ensures var group := nals[i..GroupEnd(c, nals, i, i) + 1];
            Depacketize(c, [Aggregate(c, group)] + more, Option.None) == Prepend(group, Depacketize(c, more, Option.None))
  {
    hide GroupEnd, Parse, Aggregate;
    var group := nals[i..GroupEnd(c, nals, i, i) + 1];
    GroupSizes(c, nals, i);
    forall nal | nal in group
      ensures c.HeaderSize() <= |nal|
    {
      assert nal in nals;
    }
    AggregateParses(c, group);
    assert ([Aggregate(c, group)] + more)[1..] == more;
  }

  lemma GroupSizes(c: Codec, nals: seq<Nal>, i: nat)
    requires i < |nals| && GroupEnd(c, nals, i, i) > i
    ensures forall nal :: nal in nals[i..GroupEnd(c, nals, i, i) + 1] ==> |nal| <= MAX_RTP_PAYLOAD_SIZE
  {
    var e := GroupEnd(c, nals, i, i);
    GroupIsMaximal(c, nals, i, i);
    forall k | i <= k <= e
      ensures |nals[k]| <= MAX_RTP_PAYLOAD_SIZE
    {
      TotalGrows(nals, i, k + 1, e + 1);
    }
  }

  lemma NothingLeft(c: Codec, nals: seq<Nal>)
    ensures Depacketize(c, Packetize(c, nals, |nals|), Option.None) == Some(nals[|nals|..])
  {
    assert Packetize(c, nals, |nals|) == [] && nals[|nals|..] == [];
  }

  /** The receiver returns exactly the units that were packetized, in order. */
  lemma {:induction false} RoundTrip(c: Codec, nals: seq<Nal>, i: nat)
    requires i <= |nals|
    requires forall nal :: nal in nals ==> c.Carries(nal)
    ensures Depacketize(c, Packetize(c, nals, i), Option.None) == Some(nals[i..])
    decreases |nals| - i
  {
    hide GroupEnd, Alone, Aggregate, Packetize, Depacketize, Codec.Carries;
    if i == |nals| {
      NothingLeft(c, nals);
    } else {
      PacketizeStep(c, nals, i);
      var e := GroupEnd(c, nals, i, i);
      if e > i {
        GroupDepacketizes(c, nals, i, Packetize(c, nals, e + 1));
        RoundTrip(c, nals, e + 1);
        assert nals[i..] == nals[i..e + 1] + nals[e + 1..];
      } else {
        AloneDepacketizes(c, nals[i], Packetize(c, nals, i + 1));
        RoundTrip(c, nals, i + 1);
        assert nals[i..] == [nals[i]] + nals[i + 1..];
      }
    }
  }

  // ---------------------------------------------------------------------------
  // Marker and frame type
  // ---------------------------------------------------------------------------

  /** Table 7-1 of H.264: 5 is an IDR slice, 1 to 4 are other slices. Table 7-1 of H.265:
      19 and 20 are IDR slices, the others up to 21 are other slices. */
  predicate IsKeyUnit(c: Codec, nal: Nal) {
    nal != [] && if c.H264? then nal[0] % 32 == 5 else nal[0] / 2 % 64 == 19 || nal[0] / 2 % 64 == 20
  }

  predicate IsSliceUnit(c: Codec, nal: Nal) {
    nal != [] && if c.H264? then 1 <= nal[0] % 32 <= 5 else nal[0] / 2 % 64 <= 21
  }

  /** The units in a packet, a fragment's by their header. */
  function UnitsIn(p: Parsed): seq<Nal> {
    match p
    case Single(nal) => [nal]
    case Group(nals) => nals
    case Piece(_, _, header, _) => [header]
    case Malformed => []
  }

  ghost function KindOf(c: Codec, units: seq<Nal>): FrameType {
    if exists nal :: nal in units && IsKeyUnit(c, nal) then VideoFrameIdr
    else if exists nal :: nal in units && IsSliceUnit(c, nal) then VideoFrameNotIdr
    else FrameType.None
  }

  /** Marked unless it is a fragment with more to come, and announced with the frame type
      of what it carries. */
  ghost predicate Announced(c: Codec, p: Packet) {
    var parsed := Parse(c, p.payload);
    && (!p.last <==> parsed.Piece? && !parsed.last)
    && p.kind == KindOf(c, UnitsIn(parsed))
  }

  ghost predicate AllAnnounced(c: Codec, packets: seq<Packet>) {
    forall k :: 0 <= k < |packets| ==> Announced(c, packets[k])
  }

  lemma TypeBits(b: Byte)
    ensures b & 0x1f == b % 32 && (b & 0x7e) >> 1 == b / 2 % 64
  {
  }

  lemma UnitKind(c: Codec, nal: Nal)
    requires |nal| >= c.HeaderSize()
    ensures c.RtpFrameType(nal) == KindOf(c, [nal])
    ensures c.IsIdrFrame(nal) <==> IsKeyUnit(c, nal)
    ensures c.RtpFrameType(nal) == FrameType.None <==> !IsSliceUnit(c, nal)
  {
    TypeBits(nal[0]);
    assert nal in [nal];
  }

  /** Only the header counts. */
  lemma HeaderKind(c: Codec, nal: Nal)
    requires |nal| >= c.HeaderSize()
    ensures KindOf(c, [nal[..c.HeaderSize()]]) == c.RtpFrameType(nal)
  {
    hide KindOf;
    UnitKind(c, nal[..c.HeaderSize()]);
  }

  lemma {:induction false} FragmentsAnnounced(c: Codec, nal: Nal, body: seq<Byte>, first: bool)
    requires |nal| >= c.HeaderSize() && (first ==> |body| > ChunkSize(c))
    ensures AllAnnounced(c, Fragments(c, nal, body, first))
    decreases |body|
  {
    hide Parse, FragmentHeader, KindOf, Codec.RtpFrameType;
    HeaderKind(c, nal);
    if |body| <= ChunkSize(c) {
      FragmentParses(c, nal, false, true, body);
    } else {
      FragmentParses(c, nal, first, false, body[..ChunkSize(c)]);
      FragmentsAnnounced(c, nal, body[ChunkSize(c)..], false);
    }
  }

  lemma AloneAnnounced(c: Codec, nal: Nal)
    requires c.Carries(nal)
    ensures AllAnnounced(c, Alone(c, nal))
  {
    hide KindOf, Codec.RtpFrameType, Fragments;
    UnitKind(c, nal);
    if |nal| > MAX_RTP_PAYLOAD_SIZE {
      FragmentsAnnounced(c, nal, nal[c.HeaderSize()..], true);
    }
  }

  lemma GroupKindIs(c: Codec, group: seq<Nal>)
    requires forall nal :: nal in group ==> c.HeaderSize() <= |nal|
    ensures GroupKind(c, group) == KindOf(c, group)
  {
    hide GroupKind, Codec.RtpFrameType, Codec.IsIdrFrame, IsKeyUnit, IsSliceUnit;
    GroupKindIsSound(c, group);
    GroupKindIsVideo(c, group);
    forall nal | nal in group
      ensures c.IsIdrFrame(nal) <==> IsKeyUnit(c, nal)
      ensures c.RtpFrameType(nal) == FrameType.None <==> !IsSliceUnit(c, nal)
    {
      UnitKind(c, nal);
    }
  }

  lemma {:induction false} GroupKindIsVideo(c: Codec, group: seq<Nal>)
    ensures GroupKind(c, group) != AudioFrame
  {
    if group != [] {
      GroupKindIsVideo(c, group[..|group| - 1]);
    }
  }

  lemma GroupAnnounced(c: Codec, nals: seq<Nal>, i: nat)
    requires i < |nals| && GroupEnd(c, nals, i, i) > i
    requires forall nal :: nal in nals ==> c.Carries(nal)
    ensures Announced(c, Aggregate(c, nals[i..GroupEnd(c, nals, i, i) + 1]))
  {
    hide GroupEnd, Parse, AggregateHeader, Entries, GroupKind, KindOf;
    var group := nals[i..GroupEnd(c, nals, i, i) + 1];
    GroupSizes(c, nals, i);
    forall nal | nal in group
      ensures c.HeaderSize() <= |nal|
    {
      assert nal in nals;
    }
    AggregateParses(c, group);
    GroupKindIs(c, group);
  }

  /** Every packet of an access unit is marked unless it is a fragment with more to come,
      and announced with the frame type of the units it carries, by their literal types:
      a key frame if one of them is, a frame if one of them is, and otherwise none. */
  lemma {:induction false} PacketsAreAnnounced(c: Codec, nals: seq<Nal>, i: nat)
    requires i <= |nals|
    requires forall nal :: nal in nals ==> c.Carries(nal)
    ensures AllAnnounced(c, Packetize(c, nals, i))
    decreases |nals| - i
  {
    hide GroupEnd, Alone, Aggregate, Announced, Packetize, Codec.Carries;
    if i == |nals| {
      NothingToSend(c, nals);
    } else {
      PacketizeStep(c, nals, i);
      var e := GroupEnd(c, nals, i, i);
      if e > i {
        GroupAnnounced(c, nals, i);
        PacketsAreAnnounced(c, nals, e + 1);
      } else {
        AloneAnnounced(c, nals[i]);
        PacketsAreAnnounced(c, nals, i + 1);
      }
    }
  }
}
