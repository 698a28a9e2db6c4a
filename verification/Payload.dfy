/** RTP payloads for H.264 and H.265: what the packetizers put into each packet,
    and a depacketizer that follows the payload formats.

    Formats: sections 5.6, 5.7.1 and 5.8 of RFC 6184 (single NAL unit, STAP-A,
    FU-A) and sections 4.4.1 to 4.4.3 of RFC 7798 (single NAL unit, AP, FU). */
module Payload {
  import opened Bytes

  const MAX_RTP_PAYLOAD_SIZE := 1420

  type Nal = seq<Byte>

  datatype FrameType = None | VideoFrameIdr | VideoFrameNotIdr | AudioFrame

  /** What one call of the send callback sees behind the RTP header. */
  datatype Packet = Packet(payload: seq<Byte>, last: bool, kind: FrameType)

  // ---------------------------------------------------------------------------
  // NAL unit headers
  // ---------------------------------------------------------------------------

  datatype Codec = H264 | H265 {
    function HeaderSize(): nat {
      if H264? then 1 else 2
    }

    /** A unit too short for its header reads as type 0. */
    function GetType(nal: Nal): Byte {
      if |nal| < HeaderSize() then 0
      else if H264? then nal[0] & 0x1f
      else (nal[0] & 0x7e) >> 1
    }

    predicate IsIdrFrame(nal: Nal) {
      var t := GetType(nal);
      if H264? then t == 5 else t == 19 || t == 20
    }

    predicate IsFrame(nal: Nal) {
      var t := GetType(nal);
      if H264? then 1 <= t <= 5 else t <= 21
    }

    function RtpFrameType(nal: Nal): FrameType {
      if IsIdrFrame(nal) then VideoFrameIdr
      else if IsFrame(nal) then VideoFrameNotIdr
      else FrameType.None
    }

    /** The units a stream may carry: they have a header and a type that the
        payload formats do not use themselves. */
    predicate Carries(nal: Nal) {
      && |nal| >= HeaderSize()
      && (if H264? then 1 <= GetType(nal) <= 23 else GetType(nal) < 48)
    }
  }

  function GetRefIdc(nal: Nal): Byte {
    if |nal| < 1 then 0 else (nal[0] & 0x60) >> 5
  }

  function GetLayerId(nal: Nal): Byte {
    if |nal| < 2 then 0 else ((nal[0] << 5) & 0x20) | ((nal[1] >> 3) & 0x1f)
  }

  function GetTemporalId(nal: Nal): Byte {
    if |nal| < 2 then 0 else nal[1] & 0x07
  }

  // ---------------------------------------------------------------------------
  // Aggregation
  // ---------------------------------------------------------------------------

  /** Bytes that units i..j take inside an aggregation packet. */
  function Total(nals: seq<Nal>, i: nat, j: nat): nat
    requires i <= j <= |nals|
  {
    if i == j then 0 else Total(nals, i, j - 1) + |nals[j - 1]| + 2
  }

  /** The last unit of the greedy group that starts at i and already reaches e. */
  function GroupEnd(c: Codec, nals: seq<Nal>, i: nat, e: nat): (r: nat)
    requires i <= e < |nals|
    ensures e <= r < |nals|
    decreases |nals| - e
  {
    if e + 1 < |nals| && c.HeaderSize() + Total(nals, i, e + 2) <= MAX_RTP_PAYLOAD_SIZE
    then GroupEnd(c, nals, i, e + 1)
    else e
  }

  /** Groups are maximal: a group of several units fits, and it ends at the end
      of the list or where the next unit would not fit. */
  lemma {:induction false} GroupIsMaximal(c: Codec, nals: seq<Nal>, i: nat, e: nat)
    requires i <= e < |nals|
    requires e == i || c.HeaderSize() + Total(nals, i, e + 1) <= MAX_RTP_PAYLOAD_SIZE
    ensures var r := GroupEnd(c, nals, i, e);
            && (r == i || c.HeaderSize() + Total(nals, i, r + 1) <= MAX_RTP_PAYLOAD_SIZE)
            && (r + 1 == |nals| || c.HeaderSize() + Total(nals, i, r + 2) > MAX_RTP_PAYLOAD_SIZE)
    decreases |nals| - e
  {
    if e + 1 < |nals| && c.HeaderSize() + Total(nals, i, e + 2) <= MAX_RTP_PAYLOAD_SIZE {
      GroupIsMaximal(c, nals, i, e + 1);
    }
  }

  lemma {:induction false} TotalGrows(nals: seq<Nal>, i: nat, j: nat, k: nat)
    requires i <= j <= k <= |nals|
    ensures Total(nals, i, j) + 2 * (k - j) <= Total(nals, i, k)
    decreases k - j
  {
    if j < k {
      TotalGrows(nals, i, j, k - 1);
    }
  }

  /** Maximality determines the group. */
  lemma GroupIsUnique(c: Codec, nals: seq<Nal>, i: nat, r: nat)
    requires i <= r < |nals|
    requires r == i || c.HeaderSize() + Total(nals, i, r + 1) <= MAX_RTP_PAYLOAD_SIZE
    requires r + 1 == |nals| || c.HeaderSize() + Total(nals, i, r + 2) > MAX_RTP_PAYLOAD_SIZE
    ensures GroupEnd(c, nals, i, i) == r
  {
    var e := GroupEnd(c, nals, i, i);
    GroupIsMaximal(c, nals, i, i);
    if r < e {
      TotalGrows(nals, i, r + 2, e + 1);
    } else if e < r {
      TotalGrows(nals, i, e + 2, r + 1);
    }
  }

  /** Each unit of a group behind its 16-bit size. */
  function Entries(group: seq<Nal>): seq<Byte> {
    if group == [] then [] else Be16(|group[0]|) + group[0] + Entries(group[1..])
  }

  function MaxRefIdc(group: seq<Nal>): (m: Byte)
    ensures m <= 3
  {
    if group == [] then 0
    else
      var m, r := MaxRefIdc(group[..|group| - 1]), GetRefIdc(group[|group| - 1]);
      if m < r then r else m
  }

  function MinLayerId(group: seq<Nal>): (m: Byte)
    ensures m <= 0x3f
  {
    if group == [] then 0x3f
    else
      var m, r := MinLayerId(group[..|group| - 1]), GetLayerId(group[|group| - 1]);
      if m > r then r else m
  }

  function MinTemporalId(group: seq<Nal>): (m: Byte)
    ensures m <= 0x07
  {
    if group == [] then 0x07
    else
      var m, r := MinTemporalId(group[..|group| - 1]), GetTemporalId(group[|group| - 1]);
      if m > r then r else m
  }

  /** The frame type an aggregation packet is announced with. */
  function GroupKind(c: Codec, group: seq<Nal>): FrameType {
    if group == [] then FrameType.None
    else
      var k, t := GroupKind(c, group[..|group| - 1]), c.RtpFrameType(group[|group| - 1]);
      if t == VideoFrameIdr then VideoFrameIdr
      else if k == FrameType.None then t
      else k
  }

  /** The NRI of a group is the largest of its members' (H.264). */
  lemma {:induction false} MaxRefIdcIsMax(group: seq<Nal>)
    requires group != []
    ensures (forall nal :: nal in group ==> GetRefIdc(nal) <= MaxRefIdc(group))
    ensures exists nal :: nal in group && GetRefIdc(nal) == MaxRefIdc(group)
  {
    var front, last := group[..|group| - 1], group[|group| - 1];
    assert group == front + [last] && last in group;
    if front != [] {
      MaxRefIdcIsMax(front);
    }
  }

  lemma LeastOf(a: Byte, b: Byte)
    ensures var m := if a > b then b else a;
            m <= a && m <= b
  {
  }

  lemma Below(a: Byte, b: Byte, c: Byte)
    requires a <= b <= c
    ensures a <= c
  {
  }

  lemma LayerStep(front: seq<Nal>, last: Nal)
    ensures var m, r := MinLayerId(front), GetLayerId(last);
            MinLayerId(front + [last]) == if m > r then r else m
    ensures MinLayerId([last]) == GetLayerId(last)
  {
    LeastOf(GetLayerId(last), 0x3f);
    assert (front + [last])[..|front|] == front && [last][..0] == [];
  }

  lemma {:induction false} LayerIdIsLowest(group: seq<Nal>)
    ensures forall nal :: nal in group ==> MinLayerId(group) <= GetLayerId(nal)
  {
    hide GetLayerId, MinLayerId;
    if group != [] {
      var front, last := group[..|group| - 1], group[|group| - 1];
      assert group == front + [last];
      LayerStep(front, last);
      LayerIdIsLowest(front);
      LeastOf(MinLayerId(front), GetLayerId(last));
      forall nal | nal in group
        ensures MinLayerId(group) <= GetLayerId(nal)
      {
        if nal in front {
          Below(MinLayerId(group), MinLayerId(front), GetLayerId(nal));
        }
      }
    }
  }

  lemma {:induction false} LayerIdIsReached(group: seq<Nal>)
    requires group != []
    ensures exists nal :: nal in group && GetLayerId(nal) == MinLayerId(group)
  {
    hide GetLayerId, MinLayerId;
    var front, last := group[..|group| - 1], group[|group| - 1];
    assert group == front + [last] && last in group;
    LayerStep(front, last);
    if front != [] {
      LayerIdIsReached(front);
      var least :| least in front && GetLayerId(least) == MinLayerId(front);
      assert least in group;
    }
  }

  lemma TemporalStep(front: seq<Nal>, last: Nal)
    ensures var m, r := MinTemporalId(front), GetTemporalId(last);
            MinTemporalId(front + [last]) == if m > r then r else m
    ensures MinTemporalId([last]) == GetTemporalId(last)
  {
    LeastOf(GetTemporalId(last), 0x07);
    assert (front + [last])[..|front|] == front && [last][..0] == [];
  }

  lemma {:induction false} TemporalIdIsLowest(group: seq<Nal>)
    ensures forall nal :: nal in group ==> MinTemporalId(group) <= GetTemporalId(nal)
  {
    hide GetTemporalId, MinTemporalId;
    if group != [] {
      var front, last := group[..|group| - 1], group[|group| - 1];
      assert group == front + [last];
      TemporalStep(front, last);
      TemporalIdIsLowest(front);
      LeastOf(MinTemporalId(front), GetTemporalId(last));
      forall nal | nal in group
        ensures MinTemporalId(group) <= GetTemporalId(nal)
      {
        if nal in front {
          Below(MinTemporalId(group), MinTemporalId(front), GetTemporalId(nal));
        }
      }
    }
  }

  lemma {:induction false} TemporalIdIsReached(group: seq<Nal>)
    requires group != []
    ensures exists nal :: nal in group && GetTemporalId(nal) == MinTemporalId(group)
  {
    hide GetTemporalId, MinTemporalId;
    var front, last := group[..|group| - 1], group[|group| - 1];
    assert group == front + [last] && last in group;
    TemporalStep(front, last);
    if front != [] {
      TemporalIdIsReached(front);
      var least :| least in front && GetTemporalId(least) == MinTemporalId(front);
      assert least in group;
    }
  }

  /** The layer id and temporal id of a group are the lowest of its members' (H.265). */
  lemma MinIdsAreMin(group: seq<Nal>)
    requires group != []
    ensures forall nal :: nal in group ==>
              MinLayerId(group) <= GetLayerId(nal) && MinTemporalId(group) <= GetTemporalId(nal)
    ensures exists nal :: nal in group && GetLayerId(nal) == MinLayerId(group)
    ensures exists nal :: nal in group && GetTemporalId(nal) == MinTemporalId(group)
  {
    hide GetLayerId, GetTemporalId, MinLayerId, MinTemporalId;
    LayerIdIsLowest(group);
    LayerIdIsReached(group);
    TemporalIdIsLowest(group);
    TemporalIdIsReached(group);
  }

  /** A group is announced as a key frame exactly when a member is one, and as no
      frame at all exactly when no member is a frame. */
  lemma {:induction false} GroupKindIsSound(c: Codec, group: seq<Nal>)
    ensures GroupKind(c, group) == VideoFrameIdr <==> exists nal :: nal in group && c.IsIdrFrame(nal)
    ensures GroupKind(c, group) == FrameType.None <==> forall nal :: nal in group ==> c.RtpFrameType(nal) == FrameType.None
  {
    if group != [] {
      var front, last := group[..|group| - 1], group[|group| - 1];
      assert group == front + [last] && last in group;
      GroupKindIsSound(c, front);
    }
  }

  lemma NoUnits(c: Codec, nals: seq<Nal>, i: nat)
    requires i <= |nals|
    ensures Total(nals, i, i) == 0 && Entries(nals[i..i]) == [] && GroupKind(c, nals[i..i]) == FrameType.None
    ensures MaxRefIdc(nals[i..i]) == 0 && MinLayerId(nals[i..i]) == 0x3f && MinTemporalId(nals[i..i]) == 0x07
  {
  }

  /** How a group's totals grow with one more unit. */
  lemma NextUnit(c: Codec, nals: seq<Nal>, i: nat, j: nat)
    requires i <= j < |nals|
    ensures var group, next, nal := nals[i..j], nals[i..j + 1], nals[j];
            var m, layer, temporal, k := MaxRefIdc(group), MinLayerId(group), MinTemporalId(group), GroupKind(c, group);
            && Total(nals, i, j + 1) == Total(nals, i, j) + |nal| + 2
            && Entries(next) == Entries(group) + (Be16(|nal|) + nal)
            && MaxRefIdc(next) == (if m < GetRefIdc(nal) then GetRefIdc(nal) else m)
            && MinLayerId(next) == (if layer > GetLayerId(nal) then GetLayerId(nal) else layer)
            && MinTemporalId(next) == (if temporal > GetTemporalId(nal) then GetTemporalId(nal) else temporal)
            && GroupKind(c, next) == (if c.RtpFrameType(nal) == VideoFrameIdr then VideoFrameIdr
                                      else if k == FrameType.None then c.RtpFrameType(nal) else k)
  {
    hide Entries, Be16, GetRefIdc, GetLayerId, GetTemporalId, Codec.RtpFrameType;
    var group, next, nal := nals[i..j], nals[i..j + 1], nals[j];
    EntriesSnoc(group, nal);
    assert Entries(group) + Be16(|nal|) + nal == Entries(group) + (Be16(|nal|) + nal);
    assert next == group + [nal] && next[..|next| - 1] == group;
  }

  function AggregateHeader(c: Codec, group: seq<Nal>): seq<Byte> {
    if c.H264? then
      [((MaxRefIdc(group) & 0x03) << 5) | 24]
    else
      var layer, temporal := MinLayerId(group), MinTemporalId(group);
      [((layer & 0x3f) >> 5) | (48 << 1), ((layer & 0x3f) << 3) | (temporal & 0x07)]
  }

  function Aggregate(c: Codec, group: seq<Nal>): Packet {
    Packet(AggregateHeader(c, group) + Entries(group), true, GroupKind(c, group))
  }

  // ---------------------------------------------------------------------------
  // Fragmentation
  // ---------------------------------------------------------------------------

  /** Payload bytes a fragment carries besides its header. */
  function ChunkSize(c: Codec): nat {
    MAX_RTP_PAYLOAD_SIZE - c.HeaderSize() - 1
  }

  /** Header bytes of a fragment: payload header and FU header. */
  function FragmentHeader(c: Codec, nal: Nal, first: bool, last: bool): seq<Byte>
    requires |nal| >= c.HeaderSize()
  {
    var flags: Byte := if first then 0x80 else if last then 0x40 else 0;
    if c.H264? then
      [(nal[0] & 0xe0) | 28, (c.GetType(nal) & 0x1f) | flags]
    else
      [(nal[0] & 0x81) | (49 << 1), nal[1], (c.GetType(nal) & 0x3f) | flags]
  }

  /** The fragments of `nal` that carry `body`, the part not sent so far. */
  function Fragments(c: Codec, nal: Nal, body: seq<Byte>, first: bool): seq<Packet>
    requires |nal| >= c.HeaderSize()
    decreases |body|
  {
    if |body| <= ChunkSize(c) then
      [Packet(FragmentHeader(c, nal, first, true) + body, true, c.RtpFrameType(nal))]
    else
      [Packet(FragmentHeader(c, nal, first, false) + body[..ChunkSize(c)], false, c.RtpFrameType(nal))]
      + Fragments(c, nal, body[ChunkSize(c)..], false)
  }

  /** The packets of a unit that is sent by itself. */
  function Alone(c: Codec, nal: Nal): seq<Packet> {
    if |nal| <= MAX_RTP_PAYLOAD_SIZE then [Packet(nal, true, c.RtpFrameType(nal))]
    else Fragments(c, nal, nal[c.HeaderSize()..], true)
  }

  // ---------------------------------------------------------------------------
  // The packets of an access unit
  // ---------------------------------------------------------------------------

  function Packetize(c: Codec, nals: seq<Nal>, i: nat): seq<Packet>
    requires i <= |nals|
    decreases |nals| - i
  {
    if i == |nals| then []
    else
      var e := GroupEnd(c, nals, i, i);
      if e > i then [Aggregate(c, nals[i..e + 1])] + Packetize(c, nals, e + 1)
      else Alone(c, nals[i]) + Packetize(c, nals, i + 1)
  }

  lemma PacketizeStep(c: Codec, nals: seq<Nal>, i: nat)
    requires i < |nals|
    ensures var e := GroupEnd(c, nals, i, i);
            Packetize(c, nals, i) ==
            if e > i then [Aggregate(c, nals[i..e + 1])] + Packetize(c, nals, e + 1)
            else Alone(c, nals[i]) + Packetize(c, nals, i + 1)
  {
    hide GroupEnd, Aggregate, Alone;
  }

  // ---------------------------------------------------------------------------
  // Packet bounds
  // ---------------------------------------------------------------------------

  predicate Bounded(packets: seq<Packet>) {
    forall k :: 0 <= k < |packets| ==> |packets[k].payload| <= MAX_RTP_PAYLOAD_SIZE
  }

  lemma {:induction false} EntriesLength(nals: seq<Nal>, i: nat, j: nat)
    requires i <= j <= |nals|
    ensures |Entries(nals[i..j])| == Total(nals, i, j)
  {
    hide Be16, Entries;
    if i == j {
      EntriesOfNothing();
    } else {
      EntriesLength(nals, i, j - 1);
      EntriesSnoc(nals[i..j - 1], nals[j - 1]);
      assert nals[i..j] == nals[i..j - 1] + [nals[j - 1]];
    }
  }

  lemma {:induction false} EntriesSnoc(group: seq<Nal>, nal: Nal)
    ensures Entries(group + [nal]) == Entries(group) + Be16(|nal|) + nal
  {
    hide Be16;
    var entry := Be16(|nal|) + nal;
    if group == [] {
      assert (group + [nal])[1..] == [];
    } else {
      EntriesSnoc(group[1..], nal);
      assert (group + [nal])[1..] == group[1..] + [nal];
      Regroup(Be16(|group[0]|) + group[0], Entries(group[1..]), entry);
      Regroup(Entries(group[1..]), Be16(|nal|), nal);
    }
    Regroup(Entries(group), Be16(|nal|), nal);
  }

  lemma EntriesOfNothing()
    ensures Entries([]) == []
  {
  }

  lemma FragmentHeaderSize(c: Codec, nal: Nal, first: bool, last: bool)
    requires |nal| >= c.HeaderSize()
    ensures |FragmentHeader(c, nal, first, last)| == c.HeaderSize() + 1
  {
  }

  /** Every fragment but the last fills its packet, the last is not empty, and
      only the last is announced as last. */
  lemma {:induction false} FragmentsAreFull(c: Codec, nal: Nal, body: seq<Byte>, first: bool)
    requires |nal| >= c.HeaderSize() && body != []
    ensures var f := Fragments(c, nal, body, first);
            && f != []
            && (forall k :: 0 <= k < |f| - 1 ==> |f[k].payload| == 1420 && !f[k].last)
            && c.HeaderSize() + 1 < |f[|f| - 1].payload| <= MAX_RTP_PAYLOAD_SIZE && f[|f| - 1].last
    decreases |body|
  {
    hide FragmentHeader, Codec.RtpFrameType;
    if |body| <= ChunkSize(c) {
      FragmentHeaderSize(c, nal, first, true);
    } else {
      FragmentHeaderSize(c, nal, first, false);
      FragmentsAreFull(c, nal, body[ChunkSize(c)..], false);
    }
  }

  lemma BoundedConcat(a: seq<Packet>, b: seq<Packet>)
    requires Bounded(a) && Bounded(b)
    ensures Bounded(a + b)
  {
  }

  lemma NothingToSend(c: Codec, nals: seq<Nal>)
    ensures Packetize(c, nals, |nals|) == [] && Bounded([])
  {
  }

  lemma AggregateIsBounded(c: Codec, nals: seq<Nal>, i: nat)
    requires i < |nals| && GroupEnd(c, nals, i, i) > i
    ensures |Aggregate(c, nals[i..GroupEnd(c, nals, i, i) + 1]).payload| <= MAX_RTP_PAYLOAD_SIZE
  {
    hide GroupEnd, Total, Entries, MaxRefIdc, MinLayerId, MinTemporalId;
    GroupIsMaximal(c, nals, i, i);
    EntriesLength(nals, i, GroupEnd(c, nals, i, i) + 1);
  }

  lemma AloneIsBounded(c: Codec, nal: Nal)
    ensures Bounded(Alone(c, nal))
  {
    if |nal| > MAX_RTP_PAYLOAD_SIZE {
      hide Fragments;
      FragmentsAreFull(c, nal, nal[c.HeaderSize()..], true);
    }
  }

  /** No payload exceeds 1420 bytes, whatever the units are. */
  lemma {:induction false} PacketsAreBounded(c: Codec, nals: seq<Nal>, i: nat)
    requires i <= |nals|
    ensures Bounded(Packetize(c, nals, i))
    decreases |nals| - i
  {
    hide GroupEnd, Aggregate, Alone, Bounded, Packetize;
    if i == |nals| {
      NothingToSend(c, nals);
    } else {
      PacketizeStep(c, nals, i);
      var e := GroupEnd(c, nals, i, i);
      if e > i {
        AggregateIsBounded(c, nals, i);
        PacketsAreBounded(c, nals, e + 1);
        BoundedConcat([Aggregate(c, nals[i..e + 1])], Packetize(c, nals, e + 1));
      } else {
        AloneIsBounded(c, nals[i]);
        PacketsAreBounded(c, nals, i + 1);
        BoundedConcat(Alone(c, nals[i]), Packetize(c, nals, i + 1));
      }
    }
  }

  // ---------------------------------------------------------------------------
  // Where the marker stands
  // ---------------------------------------------------------------------------

  /** What section 5.1 of RFC 6184 and section 4.1 of RFC 7798 ask for. */
  predicate MarksTheEnd(packets: seq<Packet>) {
    && packets != [] && packets[|packets| - 1].last
    && forall k :: 0 <= k < |packets| - 1 ==> !packets[k].last
  }

  lemma RoundMarksItsEnd(c: Codec, nals: seq<Nal>, i: nat)
    requires i < |nals|
    ensures var e := GroupEnd(c, nals, i, i);
            MarksTheEnd(if e > i then [Aggregate(c, nals[i..e + 1])] else Alone(c, nals[i]))
  {
    hide GroupEnd, Fragments;
    if |nals[i]| > MAX_RTP_PAYLOAD_SIZE {
      FragmentsAreFull(c, nals[i], nals[i][c.HeaderSize()..], true);
    }
  }

  lemma MarksBefore(first: seq<Packet>, rest: seq<Packet>)
    requires MarksTheEnd(first)
    ensures MarksTheEnd(first + rest) <==> rest == []
  {
    if rest == [] {
      assert first + rest == first;
    } else {
      assert (first + rest)[|first| - 1].last;
    }
  }

  /** The marker stands at the end of the access unit, and nowhere else, if and only if
      the units fit one aggregation packet or there is only one. */
  lemma MarkerExactly(c: Codec, nals: seq<Nal>)
    requires nals != []
    ensures MarksTheEnd(Packetize(c, nals, 0)) <==>
            |nals| == 1 || c.HeaderSize() + Total(nals, 0, |nals|) <= 1420
  {
    hide GroupEnd, Aggregate, Alone, Packetize, Total, MarksTheEnd;
    var e := GroupEnd(c, nals, 0, 0);
    GroupIsMaximal(c, nals, 0, 0);
    PacketizeStep(c, nals, 0);
    RoundMarksItsEnd(c, nals, 0);
    MarksBefore(if e > 0 then [Aggregate(c, nals[0..e + 1])] else Alone(c, nals[0]), Packetize(c, nals, e + 1));
    if e + 1 < |nals| {
      PacketizeStep(c, nals, e + 1);
      RoundMarksItsEnd(c, nals, e + 1);
      SomethingSent(c, nals, e + 1);
      TotalGrows(nals, 0, e + 2, |nals|);
    } else {
      NothingToSend(c, nals);
    }
  }

  lemma SomethingSent(c: Codec, nals: seq<Nal>, i: nat)
    requires i < |nals|
    ensures Packetize(c, nals, i) != []
  {
    hide GroupEnd;
    PacketizeStep(c, nals, i);
    RoundMarksItsEnd(c, nals, i);
  }

  /** Two units that do not fit one packet are marked both. */
  lemma LargeUnitsMarkTwice(c: Codec, a: Nal, b: Nal)
    requires 710 <= |a| <= 1420 && 710 <= |b| <= 1420
    ensures Packetize(c, [a, b], 0) == [Packet(a, true, c.RtpFrameType(a)), Packet(b, true, c.RtpFrameType(b))]
  {
    hide Codec.RtpFrameType;
    var nals := [a, b];
    assert Total(nals, 0, 0) == 0 && Total(nals, 0, 1) == |a| + 2;
    assert Total(nals, 0, 2) == |a| + |b| + 4;
    GroupIsUnique(c, nals, 0, 0);
    GroupIsUnique(c, nals, 1, 1);
    PacketizeStep(c, nals, 0);
    PacketizeStep(c, nals, 1);
    NothingToSend(c, nals);
  }
}
