/** The packet buffer of rtsp-server/xop/rtp.h, the copy routine of
    rtsp-server/xop/NalUnit.cpp and the packetizer parts that
    rtsp-server/xop/H264Source.cpp and rtsp-server/xop/H265Source.cpp share. */
module RtpPacket {
  import opened Bytes
  import opened Payload

  const RTP_TCP_HEAD_SIZE := 4
  const RTP_HEADER_SIZE := 12
  const HEAD := RTP_TCP_HEAD_SIZE + RTP_HEADER_SIZE
  const BUFFER_SIZE := 1600

  /** One buffer, filled in place again and again; only the first `size` bytes
      belong to the packet of the moment. */
  class RtpPacket {
    const data: array<Byte>
    var size: nat
    var timestamp: nat
    var kind: FrameType
    var last: bool

    constructor ()
      ensures Valid() && fresh(data)
    {
      data := new Byte[BUFFER_SIZE];
      size := 0;
      timestamp := 0;
      kind := FrameType.None;
      last := false;
    }

    predicate Valid()
      reads `size
    {
      data.Length == BUFFER_SIZE && size <= BUFFER_SIZE
    }

    /** What a receiver of this packet copies out of the buffer. */
    function Snapshot(): Packet
      requires Valid() && HEAD <= size
      reads this, data
    {
      Packet(data[HEAD..size], last, kind)
    }
  }

  /** The send callback. It copies the packet before it returns, because the
      caller goes on to overwrite the buffer. */
  class FrameSink {
    var log: seq<Packet>
    /** What the callback answers on its k-th call. */
    const accept: nat -> bool

    constructor (accept: nat -> bool)
      ensures log == [] && this.accept == accept
    {
      log := [];
      this.accept := accept;
    }

    method Send(pkt: RtpPacket) returns (ok: bool)
      requires pkt.Valid() && HEAD <= pkt.size
      modifies this
      ensures log == old(log) + [pkt.Snapshot()]
      ensures ok == accept(|old(log)|)
    {
      log := log + [Packet(pkt.data[HEAD..pkt.size], pkt.last, pkt.kind)];
      ok := accept(|log| - 1);
    }
  }

  /** The callback saw a prefix of `packets`: all of them when the sender
      reports success, and up to the first refused one otherwise. */
  ghost predicate Delivered(accept: nat -> bool, before: seq<Packet>, after: seq<Packet>, packets: seq<Packet>, ok: bool) {
    var n := |after| - |before|;
    && 0 <= n <= |packets| && after == before + packets[..n]
    && (forall k :: |before| <= k < |after| - (if ok then 0 else 1) ==> accept(k))
    && if ok then n == |packets| else 0 < n && !accept(|after| - 1)
  }

  lemma DeliveredThen(accept: nat -> bool, a: seq<Packet>, b: seq<Packet>, c: seq<Packet>,
                      first: seq<Packet>, second: seq<Packet>, ok: bool)
    requires Delivered(accept, a, b, first, true)
    requires Delivered(accept, b, c, second, ok)
    ensures Delivered(accept, a, c, first + second, ok)
  {
    var n := |c| - |b|;
    assert (first + second)[..|first| + n] == first + second[..n];
    assert first[..|first|] == first;
  }

  lemma RefusedThen(accept: nat -> bool, a: seq<Packet>, b: seq<Packet>, first: seq<Packet>, second: seq<Packet>)
    requires Delivered(accept, a, b, first, false)
    ensures Delivered(accept, a, b, first + second, false)
  {
    var n := |b| - |a|;
    assert (first + second)[..n] == first[..n];
  }

  lemma NothingSent(accept: nat -> bool, log: seq<Packet>)
    ensures Delivered(accept, log, log, [], true)
  {
  }

  /** One more packet after `sent`, with `rest` still to come. */
  lemma SentOne(accept: nat -> bool, before: seq<Packet>, log: seq<Packet>, sent: seq<Packet>,
                p: Packet, rest: seq<Packet>, ok: bool)
    requires Delivered(accept, before, log, sent, true) && ok == accept(|log|)
    ensures ok ==> Delivered(accept, before, log + [p], sent + [p], true)
    ensures !ok ==> Delivered(accept, before, log + [p], sent + ([p] + rest), false)
  {
    var all := sent + ([p] + rest);
    assert sent[..|sent|] == sent;
    assert (sent + [p])[..|sent| + 1] == sent + [p] == all[..|sent| + 1];
  }

  /** The last packet after `sent`. */
  lemma SentLast(accept: nat -> bool, before: seq<Packet>, log: seq<Packet>, sent: seq<Packet>, p: Packet, ok: bool)
    requires Delivered(accept, before, log, sent, true) && ok == accept(|log|)
    ensures Delivered(accept, before, log + [p], sent + [p], ok)
  {
    SentOne(accept, before, log, sent, p, [], ok);
    assert [p] + [] == [p];
  }

  /** The only packet. */
  lemma SentOnly(accept: nat -> bool, log: seq<Packet>, p: Packet, ok: bool)
    requires ok == accept(|log|)
    ensures Delivered(accept, log, log + [p], [p], ok)
  {
    NothingSent(accept, log);
    SentLast(accept, log, log, [], p, ok);
    assert [] + [p] == [p];
  }

  // ---------------------------------------------------------------------------
  // NalUnit
  // ---------------------------------------------------------------------------

  /** How many bytes `CopyData` copies. */
  function CopySize(nal: Nal, size: nat, skip: nat): (n: nat)
    ensures skip <= |nal| ==> skip + n <= |nal|
    ensures n <= size
  {
    if skip > |nal| then 0
    else if skip + size > |nal| then |nal| - skip
    else size
  }

  /** Copies at most `size` bytes of the unit, from `skip` on, and nothing past
      its end; every other byte of the destination stays. */
  method CopyData(nal: Nal, dst: array<Byte>, start: nat, size: nat, skip: nat) returns (n: nat)
    requires start + CopySize(nal, size, skip) <= dst.Length
    modifies dst
    ensures n == CopySize(nal, size, skip)
    ensures skip <= |nal| ==> dst[start..start + n] == nal[skip..skip + n]
    ensures dst[..start] == old(dst[..start])
    ensures dst[start + n..] == old(dst[start + n..])
  {
    if skip > |nal| {
      return 0;
    }
    n := size;
    if skip + n > |nal| {
      n := |nal| - skip;
    }
    forall k | 0 <= k < n {
      dst[start + k] := nal[skip + k];
    }
  }

  // ---------------------------------------------------------------------------
  // Parts both packetizers share
  // ---------------------------------------------------------------------------

  /** The grouping loop: it runs one unit too far and then takes that unit back. */
  method FindGroup(c: Codec, nals: seq<Nal>, nal_index: nat) returns (end_index: nat, size_count: nat)
    requires nal_index < |nals|
    ensures end_index == GroupEnd(c, nals, nal_index, nal_index)
    ensures size_count == c.HeaderSize() + Total(nals, nal_index, end_index + 1)
    ensures end_index > nal_index ==> size_count <= MAX_RTP_PAYLOAD_SIZE
  {
    end_index := nal_index;
    size_count := c.HeaderSize();
    while size_count < MAX_RTP_PAYLOAD_SIZE && end_index < |nals|
      invariant nal_index <= end_index <= |nals|
      invariant size_count == c.HeaderSize() + Total(nals, nal_index, end_index)
      invariant end_index > nal_index ==>
                  c.HeaderSize() + Total(nals, nal_index, end_index - 1) < MAX_RTP_PAYLOAD_SIZE
    {
      size_count := size_count + |nals[end_index]| + 2;
      end_index := end_index + 1;
    }
    end_index := end_index - 1;
    if size_count > MAX_RTP_PAYLOAD_SIZE && end_index > nal_index {
      size_count := size_count - (|nals[end_index]| + 2);
      end_index := end_index - 1;
    }
    GroupIsUnique(c, nals, nal_index, end_index);
  }

  /** A unit that fits one packet goes out as it is. */
  method SendSingle(c: Codec, nal: Nal, pkt: RtpPacket, sink: FrameSink) returns (ok: bool)
    requires pkt.Valid() && |nal| <= MAX_RTP_PAYLOAD_SIZE
    modifies pkt, pkt.data, sink
    ensures pkt.Valid()
    ensures Delivered(sink.accept, old(sink.log), sink.log, Alone(c, nal), ok)
  {
    var size := CopyData(nal, pkt.data, HEAD, MAX_RTP_PAYLOAD_SIZE, 0);
    pkt.size := HEAD + size;
    pkt.last := true;
    pkt.kind := c.RtpFrameType(nal);
    ok := sink.Send(pkt);
    assert pkt.data[HEAD..HEAD + size] == nal[0..size] == nal;
    assert Alone(c, nal) == [pkt.Snapshot()];
  }

  /** Bytes the next fragment takes of the body when `skip` bytes are sent. */
  function PieceSize(c: Codec, nal: Nal, skip: nat): nat
    requires c.HeaderSize() + skip <= |nal|
  {
    var left := |nal| - c.HeaderSize() - skip;
    if left <= ChunkSize(c) then left else ChunkSize(c)
  }

  /** `CopyBody` behind the fragment header. */
  method CopyBody(c: Codec, nal: Nal, pkt: RtpPacket, skip: nat) returns (n: nat)
    requires pkt.Valid() && c.HeaderSize() + skip <= |nal|
    modifies pkt.data
    ensures n == PieceSize(c, nal, skip)
    ensures forall k :: 0 <= k < HEAD + c.HeaderSize() + 1 ==> pkt.data[k] == old(pkt.data[k])
    ensures pkt.data[HEAD..HEAD + c.HeaderSize() + 1 + n]
            == old(pkt.data[HEAD..HEAD + c.HeaderSize() + 1]) + nal[c.HeaderSize() + skip..][..n]
  {
    var start := HEAD + c.HeaderSize() + 1;
    ghost var head := pkt.data[..start];
    n := CopyData(nal, pkt.data, start, ChunkSize(c), skip + c.HeaderSize());
    assert forall k :: 0 <= k < start ==> pkt.data[k] == pkt.data[..start][k] == head[k];
    assert pkt.data[HEAD..start + n] == pkt.data[HEAD..start] + pkt.data[start..start + n];
  }

  /** The fragments of what is left of a unit, when `skip` body bytes are sent. */
  function Left(c: Codec, nal: Nal, skip: nat, first: bool): seq<Packet>
    requires c.HeaderSize() + skip <= |nal|
  {
    Fragments(c, nal, nal[c.HeaderSize() + skip..], first)
  }

  /** The fragment that goes out next, and what is left behind it. */
  lemma NextFragment(c: Codec, nal: Nal, skip: nat, first: bool)
    requires c.HeaderSize() + skip <= |nal|
    ensures var left := nal[c.HeaderSize() + skip..];
            var n, last := PieceSize(c, nal, skip), |left| <= ChunkSize(c);
            var p := Packet(FragmentHeader(c, nal, first, last) + left[..n], last, c.RtpFrameType(nal));
            Left(c, nal, skip, first) == [p] + (if last then [] else Left(c, nal, skip + n, false))
  {
    var left := nal[c.HeaderSize() + skip..];
    if |left| <= ChunkSize(c) {
      assert left[..|left|] == left;
    } else {
      assert left[ChunkSize(c)..] == nal[c.HeaderSize() + skip + ChunkSize(c)..];
    }
  }

  /** The fragment header stands in front of the payload area. */
  predicate HeaderStands(c: Codec, nal: Nal, first: bool, last: bool, pkt: RtpPacket)
    requires pkt.Valid() && |nal| >= c.HeaderSize()
    reads pkt, pkt.data
  {
    pkt.data[HEAD..HEAD + c.HeaderSize() + 1] == FragmentHeader(c, nal, first, last)
  }

  /** Copies one full piece of the body behind the header and sends it. */
  method SendPiece(c: Codec, nal: Nal, skip: nat, first: bool, pkt: RtpPacket, sink: FrameSink)
    returns (n: nat, ok: bool, ghost p: Packet)
    requires pkt.Valid() && c.HeaderSize() + skip + ChunkSize(c) < |nal|
    requires pkt.size == HEAD + MAX_RTP_PAYLOAD_SIZE && !pkt.last && pkt.kind == c.RtpFrameType(nal)
    requires HeaderStands(c, nal, first, false, pkt)
    modifies pkt.data, sink
    ensures n == ChunkSize(c)
    ensures forall k :: 0 <= k < HEAD + c.HeaderSize() + 1 ==> pkt.data[k] == old(pkt.data[k])
    ensures Left(c, nal, skip, first) == [p] + Left(c, nal, skip + n, false)
    ensures sink.log == old(sink.log) + [p] && ok == sink.accept(|old(sink.log)|)
  {
    hide Left, FragmentHeader;
    NextFragment(c, nal, skip, first);
    n := CopyBody(c, nal, pkt, skip);
    p := pkt.Snapshot();
    ok := sink.Send(pkt);
  }

  /** The loop over the fragments between the first and the last. */
  method SendMiddle(c: Codec, nal: Nal, start: nat, pkt: RtpPacket, sink: FrameSink,
                    ghost before: seq<Packet>, ghost sentBefore: seq<Packet>)
    returns (ok: bool, skip: nat, ghost sent: seq<Packet>)
    requires pkt.Valid() && 0 < start && c.HeaderSize() + start < |nal|
    requires pkt.size == HEAD + MAX_RTP_PAYLOAD_SIZE && !pkt.last && pkt.kind == c.RtpFrameType(nal)
    requires HeaderStands(c, nal, false, false, pkt)
    requires Alone(c, nal) == sentBefore + Left(c, nal, start, false)
    requires Delivered(sink.accept, before, sink.log, sentBefore, true)
    modifies pkt.data, sink
    ensures !ok ==> Delivered(sink.accept, before, sink.log, Alone(c, nal), false)
    ensures ok ==>
              && 0 < skip && c.HeaderSize() + skip < |nal| <= c.HeaderSize() + skip + ChunkSize(c)
              && (forall k :: 0 <= k < HEAD + c.HeaderSize() + 1 ==> pkt.data[k] == old(pkt.data[k]))
              && Alone(c, nal) == sent + Left(c, nal, skip, false)
              && Delivered(sink.accept, before, sink.log, sent, true)
  {
    hide Left, Alone, FragmentHeader, Delivered, Codec.RtpFrameType;
    var data, size := pkt.data, |nal| - c.HeaderSize();
    ok, skip, sent := true, start, sentBefore;
    while size - skip > MAX_RTP_PAYLOAD_SIZE - c.HeaderSize() - 1
      invariant 0 < skip < size
      invariant forall k :: 0 <= k < HEAD + c.HeaderSize() + 1 ==> data[k] == old(data[k])
      invariant Alone(c, nal) == sent + Left(c, nal, skip, false)
      invariant Delivered(sink.accept, before, sink.log, sent, true)
    {
      assert data[HEAD..HEAD + c.HeaderSize() + 1] == old(data[HEAD..HEAD + c.HeaderSize() + 1]);
      ghost var log := sink.log;
      var n;
      ghost var p;
      n, ok, p := SendPiece(c, nal, skip, false, pkt, sink);
      skip := skip + n;
      SentOne(sink.accept, before, log, sent, p, Left(c, nal, skip, false), ok);
      if !ok {
        return;
      }
      assert sent + ([p] + Left(c, nal, skip, false)) == (sent + [p]) + Left(c, nal, skip, false);
      sent := sent + [p];
    }
  }

  lemma WholeUnit(c: Codec, nal: Nal)
    requires |nal| > MAX_RTP_PAYLOAD_SIZE
    ensures Alone(c, nal) == Left(c, nal, 0, true)
  {
  }

  /** Copies what is left of the body behind the header and sends it. */
  method SendLastPiece(c: Codec, nal: Nal, skip: nat, pkt: RtpPacket, sink: FrameSink,
                       ghost before: seq<Packet>, ghost sent: seq<Packet>)
    returns (ok: bool)
    requires pkt.Valid() && c.HeaderSize() + skip <= |nal| <= c.HeaderSize() + skip + ChunkSize(c)
    requires pkt.last && pkt.kind == c.RtpFrameType(nal)
    requires HeaderStands(c, nal, false, true, pkt)
    requires Alone(c, nal) == sent + Left(c, nal, skip, false)
    requires Delivered(sink.accept, before, sink.log, sent, true)
    modifies pkt, pkt.data, sink
    ensures pkt.Valid()
    ensures Delivered(sink.accept, before, sink.log, Alone(c, nal), ok)
  {
    hide Left, FragmentHeader, Alone, Delivered, Codec.RtpFrameType;
    NextFragment(c, nal, skip, false);
    var last_size := CopyBody(c, nal, pkt, skip);
    pkt.size := HEAD + last_size + c.HeaderSize() + 1;
    assert Left(c, nal, skip, false) == [pkt.Snapshot()];
    SentLast(sink.accept, before, sink.log, sent, pkt.Snapshot(), sink.accept(|sink.log|));
    ok := sink.Send(pkt);
  }

  /** Two bytes, most significant first. */
  method WriteSize(size: nat, data: array<Byte>, at: nat)
    requires at + 2 <= data.Length
    modifies data
    ensures data[..at + 2] == old(data[..at]) + Be16(size)
  {
    hide FromNat;
    data[at] := FromNat(size / 256);
    data[at + 1] := FromNat(size);
  }

  /** Appends unit i of a group with its size to an aggregation packet; `skip` is
      where the next byte goes and `head` what stands before the entries. */
  method AppendUnit(c: Codec, nals: seq<Nal>, first: nat, i: nat, skip: nat, data: array<Byte>, ghost head: seq<Byte>)
    returns (next: nat)
    requires first <= i < |nals| && skip == c.HeaderSize() + Total(nals, first, i)
    requires c.HeaderSize() + Total(nals, first, i + 1) <= MAX_RTP_PAYLOAD_SIZE && data.Length == BUFFER_SIZE
    requires data[..HEAD + skip] == head + Entries(nals[first..i])
    modifies data
    ensures next == c.HeaderSize() + Total(nals, first, i + 1)
    ensures data[..HEAD + next] == head + Entries(nals[first..i + 1])
  {
    hide Be16, Entries, GroupKind;
    ghost var front, entries := data[..HEAD + skip], Entries(nals[first..i]);
    var nal := nals[i];
    var size := |nal|;
    WriteSize(size, data, HEAD + skip);
    var start := HEAD + skip + 2;
    var copied := CopyData(nal, data, start, MAX_RTP_PAYLOAD_SIZE - c.HeaderSize() - 2, 0);
    assert data[start..start + copied] == nal[0..copied] == nal;
    assert data[..start + copied] == data[..start] + nal;
    Regroup(front, Be16(size), nal);
    Regroup(head, entries, Be16(size) + nal);
    NextUnit(c, nals, first, i);
    next := skip + 2 + copied;
  }
}
